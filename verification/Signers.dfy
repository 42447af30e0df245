/** How many keys sign after a request, over tables of any kind: shared pairs included. */
module Signers {
  import opened Tables
  import opened Update
  import opened Request
  import opened Moves
  import opened Zsk
  import opened RequestSteps
  import Ksk

  // ---- The switch, over tables of any kind ----

  /** The situation in which steps 8 and 9 run: no active key lasts beyond now or a rollover is forced, and there is a
      ready key that passes the backup rule. Whether the active keys are due does not matter. */
  predicate StepsRun(db: Db, rolling: bool, c: Call) {
    && (rolling || Count(db.rows, ActiveAfter(c.zone, ZSK, c.now)) == 0)
    && Count(db.rows, InStates(c.zone, ZSK, {Ready})) > 0
    && (c.policy.zskManual ==> rolling)
    && !BackupRefused(db, InStates(c.zone, ZSK, {Ready}), 1, c.needsBackup)
  }

  /** The rows after steps 8 and 9: the first ready key becomes active, then all due active keys retire. */
  lemma SwitchRows(db: Db, rolling: bool, c: Call) returns (a: nat)
    requires StepsRun(db, rolling, c)
    ensures a < |db.rows| && Picked(db.rows, InStates(c.zone, ZSK, {Ready}), 1, a)
    ensures Switched(db, ZSK, rolling, false, c)
      == (Ok, ActiveRetired(db.rows[a := Enter(db.rows[a], Active, c.now)], ZSK, c))
  {
    a := MovedOneRow(db.rows, InStates(c.zone, ZSK, {Ready}), Active, c.now);
  }

  lemma NoSwitch(db: Db, rolling: bool, c: Call)
    requires !StepsRun(db, rolling, c)
    ensures Switched(db, ZSK, rolling, false, c) == (Ok, db.rows)
  {
    hide BackupRefused;
  }

  lemma OnlyOnePicked(rows: seq<Row>, q: Clause, i: nat, j: nat)
    requires i < |rows| && j < |rows| && Picked(rows, q, 1, i) && Picked(rows, q, 1, j)
    ensures i == j
  {
    if i < j {
      CountPositive(rows[..j], q, i);
    } else if j < i {
      CountPositive(rows[..i], q, j);
    }
  }

  lemma {:induction false} CountUpdate(rows: seq<Row>, a: nat, r: Row, q: Clause)
    requires a < |rows|
    ensures Count(rows[a := r], q)
      == Count(rows, q) - (if Matches(q, rows[a]) then 1 else 0) + (if Matches(q, r) then 1 else 0)
  {
    var last := |rows| - 1;
    if a == last {
      assert rows[a := r][..last] == rows[..last];
    } else {
      CountUpdate(rows[..last], a, r, q);
      assert rows[a := r][..last] == rows[..last][a := r];
    }
  }

  function One(b: bool): nat {
    if b then 1 else 0
  }

  /** The number of active ZSKs after a switch: one more, less those that are due, the new one included. */
  lemma SwitchSigners(db: Db, rolling: bool, c: Call, a: nat)
    requires StepsRun(db, rolling, c)
    requires a < |db.rows| && Picked(db.rows, InStates(c.zone, ZSK, {Ready}), 1, a)
    ensures Count(Switched(db, ZSK, rolling, false, c).1, InStates(c.zone, ZSK, {Active}))
      == Count(db.rows, InStates(c.zone, ZSK, {Active})) + 1
         - Count(db.rows, DueFor(c.zone, ZSK, Active, Retire, c.now)) - One(Due(db.rows[a].retire, c.now))
  {
    hide StepsRun, Switched, Count;
    var b := SwitchRows(db, rolling, c);
    OnlyOnePicked(db.rows, InStates(c.zone, ZSK, {Ready}), a, b);
    var active, due := InStates(c.zone, ZSK, {Active}), DueFor(c.zone, ZSK, Active, Retire, c.now);
    var moved := db.rows[a := Enter(db.rows[a], Active, c.now)];
    CountUpdate(db.rows, a, Enter(db.rows[a], Active, c.now), active);
    CountUpdate(db.rows, a, Enter(db.rows[a], Active, c.now), due);
    CountSplit(moved, active, ActiveRetired(moved, ZSK, c), active, moved, due);
  }

  /** From one active key: one again if the steps do not run; if they do, two less one for each of the old key and the
      new one that is due. */
  lemma SwitchKeepsSignerIff(db: Db, rolling: bool, c: Call, old': nat, a: nat)
    requires OneActive(db.rows, c.zone, old')
    requires StepsRun(db, rolling, c) ==> a < |db.rows| && Picked(db.rows, InStates(c.zone, ZSK, {Ready}), 1, a)
    ensures Switched(db, ZSK, rolling, false, c).0 == Ok
    ensures Count(Switched(db, ZSK, rolling, false, c).1, InStates(c.zone, ZSK, {Active}))
      == if StepsRun(db, rolling, c) then 2 - One(Due(db.rows[old'].retire, c.now)) - One(Due(db.rows[a].retire, c.now))
         else 1
  {
    hide StepsRun, Switched, Count;
    CountOne(db.rows, InStates(c.zone, ZSK, {Active}), old');
    if StepsRun(db, rolling, c) {
      var b := SwitchRows(db, rolling, c);
      SwitchSigners(db, rolling, c, a);
      if Due(db.rows[old'].retire, c.now) {
        CountOne(db.rows, DueFor(c.zone, ZSK, Active, Retire, c.now), old');
      } else {
        CountNone(db.rows, DueFor(c.zone, ZSK, Active, Retire, c.now));
      }
    } else {
      NoSwitch(db, rolling, c);
    }
  }

  // ---- The whole request, told from the stored tables ----

  /** The retire date that an active ZSK will have when the switch looks at it. */
  function NextRetire(db: Db, r: Row, rollover: bool, c: Call): Option<int> {
    if rollover then Some(c.now) else UpdatedRow(r, c.policy, HasFixedDate(db.pairs, r)).retire
  }

  /** The key is ready, or published for the interval. */
  predicate WillBeReady(r: Row, c: Call) {
    && IsZsk(r, c.zone)
    && (|| r.state == Ready
        || (&& r.state == Publish && r.publish.Some?
            && r.publish.value + (c.policy.zskTtl + c.policy.propDelay + c.policy.pubSafety) <= c.now))
  }

  predicate FirstReady(rows: seq<Row>, c: Call, a: nat) {
    a < |rows| && WillBeReady(rows[a], c) && forall j :: 0 <= j < a ==> !WillBeReady(rows[j], c)
  }

  predicate SomeReady(rows: seq<Row>, c: Call) {
    exists j :: 0 <= j < |rows| && WillBeReady(rows[j], c)
  }

  /** Whether a request switches from the active key `old'` to the first ready key. */
  predicate SwitchComes(db: Db, rollover: bool, c: Call, old': nat, a: nat)
    requires old' < |db.rows|
  {
    var rolling := rollover || Compromised(db, ZSK, c.zone);
    var retire := NextRetire(db, db.rows[old'], rollover, c);
    && FirstReady(db.rows, c, a) && !LacksBackup(db.pairs, db.rows[a].pair, c.needsBackup)
    && (rolling || !(retire.Some? && retire.value > c.now)) && (c.policy.zskManual ==> rolling)
  }

  /** The tables that the switch of a later ZSK pass starts from. */
  function SwitchInput(db: Db, rollover: bool, c: Call, newDs: bool): Db {
    var marked := if rollover then Marked(db, ZSK, c) else db;
    marked.(rows := Staged(marked.rows, ZSK, false, c, newDs))
  }

  /** The two tables have the same entry for the pair, or none. */
  predicate SamePair(a: map<int, KeyPair>, b: map<int, KeyPair>, k: int) {
    (k in a <==> k in b) && (k in a ==> a[k] == b[k])
  }

  /** Over unique rows the KSK pass leaves the zone's ZSKs and their pairs alone; and everything but the zone's KSKs
      unless a rollover is forced. */
  lemma KskPassLeavesZsks(db: Db, rollover: bool, c: Call, newDs: bool)
    requires Unique(db.rows)
    ensures var out := ByType(db, KSK, rollover, c, newDs);
      && out.status == Ok && |out.db.rows| == |db.rows|
      && forall i :: 0 <= i < |db.rows| ==>
           && SameKey(db.rows[i], out.db.rows[i])
           && (IsZsk(db.rows[i], c.zone) ==>
                 out.db.rows[i] == db.rows[i] && SamePair(db.pairs, out.db.pairs, db.rows[i].pair))
           && (!rollover && !Ksk.IsKsk(db.rows[i], c.zone) ==> out.db.rows[i] == db.rows[i])
    ensures !rollover ==> ByType(db, KSK, rollover, c, newDs).db.pairs == db.pairs
  {
    hide Staged, Switched, StagedNewDs, Issue;
    var firstPass := IsFirstPass(db.rows, KSK, c.zone);
    var marked := if rollover then Marked(db, KSK, c) else db;
    var staged := marked.(rows := Staged(marked.rows, KSK, firstPass, c, newDs));
    StagedRises(marked.rows, KSK, firstPass, c, newDs);
    var rolling := rollover || Compromised(db, KSK, c.zone);
    SwitchedRises(staged, KSK, rolling, firstPass, c);
    Ksk.SwitchedStatus(staged, rolling, firstPass, c);
    forall i | 0 <= i < |db.rows| && IsZsk(db.rows[i], c.zone)
      ensures db.rows[i].pair !in ActivePairs(db.rows, KSK, c.zone)
    {
    }
  }

  /** What the ZSK pass of a request starts from, as far as the zone's ZSKs go. */
  ghost predicate SameView(db: Db, input: Db, c: Call) {
    && |input.rows| == |db.rows|
    && forall i :: 0 <= i < |db.rows| ==>
         && SameKey(db.rows[i], input.rows[i])
         && (IsZsk(db.rows[i], c.zone) ==>
               && input.rows[i] == UpdatedRow(db.rows[i], c.policy, HasFixedDate(db.pairs, db.rows[i]))
               && SamePair(db.pairs, input.pairs, db.rows[i].pair))
  }

  lemma UniqueKept(a: seq<Row>, b: seq<Row>)
    requires Unique(a) && |a| == |b| && forall i :: 0 <= i < |a| ==> SameKey(a[i], b[i])
    ensures Unique(b)
  {
    assert forall i :: 0 <= i < |a| ==> SameKey(a[i], b[i]);
  }

  lemma InputView(db: Db, kinds: Kinds, rollover: bool, c: Call, newDs: bool)
    requires Unique(db.rows)
    ensures var input := ZskInput(db, kinds, rollover, c, newDs); SameView(db, input, c) && Unique(input.rows)
  {
    hide ByType;
    var dated := WithDates(db, c);
    UniqueKept(db.rows, dated.rows);
    if kinds.Both? {
      KskPassLeavesZsks(dated, rollover, c, newDs);
      UniqueKept(dated.rows, ByType(dated, KSK, rollover, c, newDs).db.rows);
    }
  }

  /** Over unique rows, marking dates exactly the zone's active ZSKs among its ZSKs. */
  lemma MarkUnique(db: Db, c: Call, i: nat)
    requires Unique(db.rows) && i < |db.rows| && IsZsk(db.rows[i], c.zone)
    ensures var r := db.rows[i];
      Marked(db, ZSK, c).rows[i] == if r.state == Active then r.(retire := Some(c.now)) else r
  {
    if db.rows[i].state == Active {
      assert Matches(InStates(c.zone, ZSK, {Active}), db.rows[i]);
    }
  }

  /** One of the zone's ZSKs when the switch looks at it. */
  predicate SwitchView(db: Db, r: Row, s: Row, rollover: bool, c: Call) {
    && (s.state == Active <==> r.state == Active)
    && (r.state == Active ==> s.retire == NextRetire(db, r, rollover, c))
    && (s.state == Ready <==> WillBeReady(r, c))
    && (WillBeReady(r, c) ==> s.retire == r.retire)
  }

  lemma RowAtSwitch(db: Db, input: Db, rollover: bool, c: Call, newDs: bool, i: nat)
    requires SameView(db, input, c) && Unique(input.rows) && i < |db.rows|
    ensures var s := SwitchInput(input, rollover, c, newDs);
      && |s.rows| == |db.rows| && SameKey(db.rows[i], s.rows[i])
      && (IsZsk(db.rows[i], c.zone) ==> SwitchView(db, db.rows[i], s.rows[i], rollover, c))
      && (IsZsk(db.rows[i], c.zone) ==>
            (LacksBackup(s.pairs, s.rows[i].pair, c.needsBackup) <==>
             LacksBackup(db.pairs, db.rows[i].pair, c.needsBackup)))
  {
    hide Staged;
    var marked := if rollover then Marked(input, ZSK, c) else input;
    assert SameKey(db.rows[i], input.rows[i]) && SameKey(input.rows[i], marked.rows[i]);
    StagedRises(marked.rows, ZSK, false, c, newDs);
    ZskStaged(marked.rows, false, c, newDs);
    if IsZsk(db.rows[i], c.zone) {
      if rollover {
        MarkUnique(input, c, i);
      }
      assert StagedRow(marked.rows[i], Staged(marked.rows, ZSK, false, c, newDs)[i], c.now);
    }
  }

  /** The switch of a request, told from the stored tables. */
  lemma SwitchFromStored(db: Db, input: Db, rollover: bool, c: Call, newDs: bool, old': nat, a: nat)
    requires SameView(db, input, c) && Unique(input.rows) && OneActive(db.rows, c.zone, old')
    requires SomeReady(db.rows, c) ==> FirstReady(db.rows, c, a)
    ensures
      var s := SwitchInput(input, rollover, c, newDs);
      var rolling := rollover || Compromised(input, ZSK, c.zone);
      && |s.rows| == |db.rows| && OneActive(s.rows, c.zone, old')
      && s.rows[old'].retire == NextRetire(db, db.rows[old'], rollover, c)
      && (StepsRun(s, rolling, c) <==> SomeReady(db.rows, c) && SwitchComes(db, rollover, c, old', a))
      && (SomeReady(db.rows, c) ==>
            && a < |s.rows| && Picked(s.rows, InStates(c.zone, ZSK, {Ready}), 1, a)
            && s.rows[a].retire == db.rows[a].retire)
  {
    hide SwitchInput, Count, NextRetire, LacksBackup, WillBeReady, SameView;
    var s, ready := SwitchInput(input, rollover, c, newDs), InStates(c.zone, ZSK, {Ready});
    forall i | 0 <= i < |db.rows|
      ensures |s.rows| == |db.rows| && SameKey(db.rows[i], s.rows[i])
      ensures IsZsk(db.rows[i], c.zone) ==> SwitchView(db, db.rows[i], s.rows[i], rollover, c)
      ensures Matches(ready, s.rows[i]) <==> WillBeReady(db.rows[i], c)
      ensures Matches(ready, s.rows[i]) ==>
        (LacksBackup(s.pairs, s.rows[i].pair, c.needsBackup) <==> LacksBackup(db.pairs, db.rows[i].pair, c.needsBackup))
    {
      RowAtSwitch(db, input, rollover, c, newDs, i);
      ReadyIsZsk(db.rows[i], c);
    }
    CompromisedView(db, input, c);
    if s.rows[old'].retire.Some? && s.rows[old'].retire.value > c.now {
      CountPositive(s.rows, ActiveAfter(c.zone, ZSK, c.now), old');
    } else {
      CountNone(s.rows, ActiveAfter(c.zone, ZSK, c.now));
    }
    if SomeReady(db.rows, c) {
      CountPositive(s.rows, ready, a);
      CountNone(s.rows[..a], ready);
      RefusedFirst(s, ready, c.needsBackup, a);
    } else {
      CountNone(s.rows, ready);
    }
  }

  lemma ReadyIsZsk(r: Row, c: Call)
    ensures WillBeReady(r, c) ==> IsZsk(r, c.zone)
  {
  }

  lemma RefusedFirst(db: Db, q: Clause, needsBackup: set<int>, a: nat)
    requires a < |db.rows| && Picked(db.rows, q, 1, a)
    ensures BackupRefused(db, q, 1, needsBackup) <==> LacksBackup(db.pairs, db.rows[a].pair, needsBackup)
  {
    hide LacksBackup, Picked;
    forall i | 0 <= i < |db.rows| && Picked(db.rows, q, 1, i)
      ensures i == a
    {
      OnlyOnePicked(db.rows, q, i, a);
    }
  }

  lemma CompromisedView(db: Db, input: Db, c: Call)
    requires SameView(db, input, c)
    ensures Compromised(input, ZSK, c.zone) <==> Compromised(db, ZSK, c.zone)
  {
    var q := InStates(c.zone, ZSK, {Active});
    forall i | 0 <= i < |db.rows|
      ensures Matches(q, db.rows[i]) <==> Matches(q, input.rows[i])
      ensures Matches(q, db.rows[i]) ==> SamePair(db.pairs, input.pairs, db.rows[i].pair)
      ensures input.rows[i].pair == db.rows[i].pair
    {
      assert SameKey(db.rows[i], input.rows[i]);
    }
  }

  /** In every request that handles the ZSKs of a zone with one active ZSK, whatever pairs are shared: it succeeds, and
      the number of active ZSKs afterwards, which is the number of signers in the issued list, is one if the switch does
      not come, and otherwise two less one for each of the old key and the new key whose retire date is due. So there is
      one signer if and only if the switch does not come or exactly one of the two is due. */
  lemma RequestKeepsSignerIff(db: Db, kinds: Kinds, rollover: bool, c: Call, newDs: bool, old': nat, a: nat)
    requires Unique(db.rows) && kinds != Only(KSK) && OneActive(db.rows, c.zone, old')
    requires SomeReady(db.rows, c) ==> FirstReady(db.rows, c, a)
    ensures
      var out := Handled(db, kinds, rollover, c, newDs);
      var old_due := Due(NextRetire(db, db.rows[old'], rollover, c), c.now);
      var comes := SomeReady(db.rows, c) && SwitchComes(db, rollover, c, old', a);
      var signers := if comes then 2 - One(old_due) - One(Due(db.rows[a].retire, c.now)) else 1;
      && out.status == Ok
      && Count(out.db.rows, InStates(c.zone, ZSK, {Active})) == signers
      && Count(out.issued, InStates(c.zone, ZSK, {Active})) == signers
      && (signers == 1 <==> !comes || old_due != Due(db.rows[a].retire, c.now))
  {
    hide SwitchInput, Switched, StagedNewDs, Issue, Marked, Count, Updated, Picked, StepsRun, SameView, NextRetire,
      WillBeReady, SomeReady, SwitchComes, FirstReady;
    var input, flag := ZskInput(db, kinds, rollover, c, newDs), FlagInput(db, kinds, rollover, c, newDs);
    InputView(db, kinds, rollover, c, newDs);
    var s, rolling := SwitchInput(input, rollover, c, flag), rollover || Compromised(input, ZSK, c.zone);
    SwitchFromStored(db, input, rollover, c, flag, old', a);
    SwitchKeepsSignerIff(s, rolling, c, old', a);
    var t := Switched(s, ZSK, rolling, false, c).1;
    LaterPassIs(db, input, rollover, c, flag, old');
    var out := ByType(input, ZSK, rollover, c, flag);
    SameActiveCount(out.db, c);
    IssuedSigners(t, c);
    RequestOfPass(db, kinds, rollover, c, newDs);
  }

  /** The two keys themselves when the switch comes: each is retired if its date is due, and active otherwise. */
  lemma SwitchedKeys(db: Db, kinds: Kinds, rollover: bool, c: Call, newDs: bool, old': nat, a: nat)
    requires Unique(db.rows) && kinds != Only(KSK) && OneActive(db.rows, c.zone, old')
    requires SomeReady(db.rows, c) && SwitchComes(db, rollover, c, old', a)
    ensures
      var rows := Handled(db, kinds, rollover, c, newDs).db.rows;
      && |rows| == |db.rows| && a != old'
      && rows[a].state == (if Due(db.rows[a].retire, c.now) then Retire else Active)
      && rows[old'].state == (if Due(NextRetire(db, db.rows[old'], rollover, c), c.now) then Retire else Active)
  {
    hide SwitchInput, Switched, Count, StepsRun, SameView, NextRetire, WillBeReady, SomeReady, SwitchComes, ByType;
    hide Handled, ActiveRetired, ZskInput, FlagInput, Updated, LacksBackup;
    var input, flag := ZskInput(db, kinds, rollover, c, newDs), FlagInput(db, kinds, rollover, c, newDs);
    InputView(db, kinds, rollover, c, newDs);
    var s, rolling := SwitchInput(input, rollover, c, flag), rollover || Compromised(input, ZSK, c.zone);
    FirstOfSwitch(db, rollover, c, old', a);
    SwitchFromStored(db, input, rollover, c, flag, old', a);
    var b := SwitchRows(s, rolling, c);
    OnlyOnePicked(s.rows, InStates(c.zone, ZSK, {Ready}), a, b);
    LaterPassIs(db, input, rollover, c, flag, old');
    RequestOfPass(db, kinds, rollover, c, newDs);
    RetiredRow(s.rows, c, a, a);
    RetiredRow(s.rows, c, a, old');
    SameUpdatedStates(ByType(input, ZSK, rollover, c, flag).db, c);
  }

  lemma FirstOfSwitch(db: Db, rollover: bool, c: Call, old': nat, a: nat)
    requires old' < |db.rows| && SwitchComes(db, rollover, c, old', a)
    ensures FirstReady(db.rows, c, a)
  {
  }

  lemma SameUpdatedStates(db: Db, c: Call)
    ensures forall i :: 0 <= i < |db.rows| ==> WithDates(db, c).rows[i].state == db.rows[i].state
  {
  }

  lemma RetiredRow(rows: seq<Row>, c: Call, a: nat, i: nat)
    requires a < |rows| && i < |rows| && IsZsk(rows[i], c.zone) && (i == a || rows[i].state == Active)
    ensures ActiveRetired(rows[a := Enter(rows[a], Active, c.now)], ZSK, c)[i].state
      == if Due(rows[i].retire, c.now) then Retire else Active
  {
  }

  /** A pass that is not the first: the switch on its input. */
  lemma LaterPassIs(db: Db, input: Db, rollover: bool, c: Call, newDs: bool, old': nat)
    requires SameView(db, input, c) && OneActive(db.rows, c.zone, old')
    ensures
      var s := SwitchInput(input, rollover, c, newDs);
      var (status, t) := Switched(s, ZSK, rollover || Compromised(input, ZSK, c.zone), false, c);
      var out := ByType(input, ZSK, rollover, c, newDs);
      out.status == status && out.db == s.(rows := t) && (status == Ok ==> out.issued == Issue(t, ZSK, c.zone))
  {
    hide Staged, Switched, StagedNewDs, Issue, Marked, Count;
    assert SameKey(db.rows[old'], input.rows[old']);
    CountPositive(input.rows, InStates(c.zone, ZSK, BEYOND_GENERATE), old');
  }

  /** The ZSK pass of a request. */
  function ZskPassOf(db: Db, kinds: Kinds, rollover: bool, c: Call, newDs: bool): Pass {
    ByType(ZskInput(db, kinds, rollover, c, newDs), ZSK, rollover, c, FlagInput(db, kinds, rollover, c, newDs))
  }

  /** A request whose ZSK pass succeeds: its tables and its ZSK signers are those of the pass. */
  lemma RequestOfPass(db: Db, kinds: Kinds, rollover: bool, c: Call, newDs: bool)
    requires Unique(db.rows) && kinds != Only(KSK)
    requires ZskPassOf(db, kinds, rollover, c, newDs).status == Ok
    ensures
      var pass := ZskPassOf(db, kinds, rollover, c, newDs);
      var out := Handled(db, kinds, rollover, c, newDs);
      && out.status == Ok && out.db == WithDates(pass.db, c)
      && Count(out.issued, InStates(c.zone, ZSK, {Active})) == Count(pass.issued, InStates(c.zone, ZSK, {Active}))
  {
    hide ByType, Updated, Count;
    var dated := WithDates(db, c);
    UniqueDated(db, c);
    if kinds.Both? {
      KskPassLeavesZsks(dated, rollover, c, newDs);
      var first := ByType(dated, KSK, rollover, c, newDs);
      var pass := ByType(first.db, ZSK, rollover, c, first.newDs);
      IssuedByPass(dated, KSK, rollover, c, newDs);
      IssuedKinds(first.db.rows, KSK, c.zone);
      NoOtherSigners(first.issued, pass.issued, c);
    } else {
      assert kinds.kind.KSK? ==> kinds == Only(KSK);
    }
  }

  lemma UniqueDated(db: Db, c: Call)
    requires Unique(db.rows)
    ensures Unique(WithDates(db, c).rows)
  {
    UniqueKept(db.rows, WithDates(db, c).rows);
  }

  lemma {:induction false} NoOtherSigners(ksks: seq<Row>, zsks: seq<Row>, c: Call)
    requires forall r :: r in ksks ==> r.kind == KSK
    ensures Count(ksks + zsks, InStates(c.zone, ZSK, {Active})) == Count(zsks, InStates(c.zone, ZSK, {Active}))
  {
    var q := InStates(c.zone, ZSK, {Active});
    if zsks == [] {
      assert ksks + zsks == ksks;
      forall i | 0 <= i < |ksks|
        ensures !Matches(q, ksks[i])
      {
        assert ksks[i] in ksks;
      }
      CountNone(ksks, q);
    } else {
      var front, last := zsks[..|zsks| - 1], zsks[|zsks| - 1];
      NoOtherSigners(ksks, front, c);
      assert ksks + zsks == (ksks + front) + [last] && zsks == front + [last];
      CountAppend(ksks + front, last, q);
      CountAppend(front, last, q);
    }
  }

  lemma SameActiveCount(db: Db, c: Call)
    ensures Count(Updated(db, c.policy, c.zone), InStates(c.zone, ZSK, {Active}))
      == Count(db.rows, InStates(c.zone, ZSK, {Active}))
  {
    CountEq(Updated(db, c.policy, c.zone), InStates(c.zone, ZSK, {Active}), db.rows, InStates(c.zone, ZSK, {Active}));
  }

  /** The signers in an issued list are the active keys. */
  lemma {:induction false} IssuedSigners(rows: seq<Row>, c: Call)
    ensures Count(Issue(rows, ZSK, c.zone), InStates(c.zone, ZSK, {Active}))
      == Count(rows, InStates(c.zone, ZSK, {Active}))
  {
    if rows != [] {
      var front, last := rows[..|rows| - 1], rows[|rows| - 1];
      IssuedSigners(front, c);
      var before := Issue(front, ZSK, c.zone);
      CountAppend(before, last, InStates(c.zone, ZSK, {Active}));
      var q := InStates(c.zone, ZSK, ISSUED);
      assert Issue(rows, ZSK, c.zone) == if Matches(q, last) then before + [last] else before;
    }
  }
}
