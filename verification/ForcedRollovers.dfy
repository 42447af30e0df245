/** A forced rollover over a whole run: the marked key keeps its date and goes at the first chance. */
module ForcedRollovers {
  import opened Tables
  import opened Update
  import opened Request
  import opened Moves
  import opened Invariant
  import opened Runs
  import opened RequestSteps
  import opened EventSteps
  import opened Histories
  import opened Rollovers
  import Zsk

  lemma TheActiveOne(w: World, z: int, i: nat)
    requires SignerOk(w, z) && i < |w.db.rows| && Zsk.Signs(w.db.rows[i], z)
    ensures Zsk.OneActive(w.db.rows, z, i)
  {
    assert !Zsk.AllGenerated(w.db.rows, z);
    var a: nat :| Zsk.OneActive(w.db.rows, z, a);
  }

  /** The tables that the ZSK pass starts from are in order, and the marked key is in them as it was. */
  lemma InputInOrder(w: World, kinds: Kinds, rollover: bool, c: Call, newDs: bool, i: nat)
    requires Inv(w, c.zone) && w.clock <= c.now && kinds != Only(KSK)
    requires i < |w.db.rows| && Zsk.Signs(w.db.rows[i], c.zone) && IsMarked(w.db.pairs, w.db.rows[i])
    ensures var db := ZskInput(w.db, kinds, rollover, c, newDs);
      && Good(db, c.now) && Zsk.Dated(db.rows, c.zone, c.policy) && Zsk.OneActive(db.rows, c.zone, i)
      && db.rows[i] == w.db.rows[i] && IsMarked(db.pairs, db.rows[i])
  {
    hide ByType, Updated, HasLife, HasKskLife, RowsOk;
    UpdateStep(w, c, c.zone);
    var w1 := Redated(w, c);
    UpdatedFixed(w.db, c, i);
    TheActiveOne(w1, c.zone, i);
    if kinds.Both? {
      PassFrame(w1, KSK, rollover, c, newDs, c.zone);
      DatedAfterKsk(w1, rollover, c, newDs, c.zone);
      PassPairs(w1.db, KSK, rollover, c, newDs);
      var w2 := Passed(w1, ByType(w1.db, KSK, rollover, c, newDs), KSK, c);
      assert w2.db.rows[i] == w1.db.rows[i];
      TheActiveOne(w2, c.zone, i);
    }
  }

  /** A request for the zone whose ZSK pass finds a successor retires the marked key. */
  lemma RequestRetiresMarked(w: World, kinds: Kinds, rollover: bool, c: Call, newDs: bool, i: nat)
    requires Inv(w, c.zone) && w.clock <= c.now && kinds != Only(KSK)
    requires i < |w.db.rows| && Zsk.Signs(w.db.rows[i], c.zone) && IsMarked(w.db.pairs, w.db.rows[i])
    requires SuccessorReady(
      ZskInput(w.db, kinds, rollover, c, newDs), rollover, c, FlagInput(w.db, kinds, rollover, c, newDs))
    ensures var out := Handled(w.db, kinds, rollover, c, newDs);
      && out.status == Ok && |out.db.rows| == |w.db.rows|
      && out.db.rows[i].state == Retire && out.db.rows[i].retire == Some(c.now)
  {
    hide ByType, Updated, Inv, SuccessorReady, Zsk.Dated;
    var db, flag := ZskInput(w.db, kinds, rollover, c, newDs), FlagInput(w.db, kinds, rollover, c, newDs);
    InputInOrder(w, kinds, rollover, c, newDs, i);
    MarkedKeyRetires(db, rollover, c, flag, i);
    var out := ByType(db, ZSK, rollover, c, flag);
    RetiredUpdate(out.db, c, i);
    RequestConservesKeys(w.db, kinds, rollover, c, newDs);
    if kinds.Both? {
      UpdateStep(w, c, c.zone);
      KskStep(Redated(w, c), rollover, c, newDs, c.zone);
    }
    assert kinds.Only? ==> kinds.kind.ZSK? by { assert kinds.Only? && kinds.kind.KSK? ==> kinds == Only(KSK); }
    assert Handled(w.db, kinds, rollover, c, newDs).db == WithDates(out.db, c);
  }

  lemma RetiredUpdate(db: Db, c: Call, i: nat)
    requires i < |db.rows| && db.rows[i].state == Retire
    ensures var r := Updated(db, c.policy, c.zone)[i]; r.state == Retire && r.retire == db.rows[i].retire
  {
  }

  /** In every run: after a forced rollover at `start` has marked the active ZSK k of the zone with date t, the
      first later request whose chosen successor passes the backup rule retires k, whether or not it is forced
      itself and whatever the manual rollover setting; until then k stays active with date t. */
  lemma ForcedRolloverCompletes(ws: seq<World>, es: seq<Event>, start: nat, n: nat, k: int, t: int, i: nat)
    requires Run(ws, es) && start <= n < |es| && es[n].KeyRequest? && es[n].kinds != Only(KSK)
    requires Initial(ws[0], es[n].call.zone) && FixedAt(ws[start], es[n].call.zone, k, t)
    requires forall m :: start <= m < n ==> !ForcesAgain(ws[m], es[m], es[n].call.zone, k)
    requires i < |ws[n].db.rows| && ws[n].db.rows[i].pair == k && ws[n].db.rows[i].state == Active
    requires var e := es[n];
      SuccessorReady(ZskInput(ws[n].db, e.kinds, e.rollover, e.call, e.newDs), e.rollover, e.call,
                     FlagInput(ws[n].db, e.kinds, e.rollover, e.call, e.newDs))
    ensures ws[n].db.rows[i].retire == Some(t)
    ensures i < |ws[n + 1].db.rows| && ws[n + 1].db.rows[i].pair == k
    ensures ws[n + 1].db.rows[i].state == Retire && ws[n + 1].db.rows[i].retire == Some(es[n].call.now)
  {
    hide Inv, Initial, Handled, SuccessorReady, ZskInput, FlagInput;
    var e, zone := es[n], es[n].call.zone;
    RunInv(ws, es, zone, n);
    RetireDateStaysFixed(ws, es, zone, start, n, zone, k, t);
    RequestRetiresMarked(ws[n], e.kinds, e.rollover, e.call, e.newDs, i);
    RequestConservesKeys(ws[n].db, e.kinds, e.rollover, e.call, e.newDs);
  }
}
