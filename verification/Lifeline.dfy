/** What the signer sees of one key over a whole run: the sequence of issued key lists, and the stretch of
    them in which a key is listed, stands by, and signs. */
module Lifeline {
  import opened Tables
  import opened Update
  import opened Request
  import opened Invariant
  import Zsk
  import Ksk

  /** One key list handed to the signer by a successful request. */
  datatype KeyList = KeyList(
    time: int, zone: int, kind: KeyType, policy: Policy,
    listed: set<int>, signers: set<int>, standby: set<int>)

  function ListOf(issued: seq<Row>, kind: KeyType, c: Call): KeyList {
    KeyList(c.now, c.zone, kind, c.policy,
            set r | r in issued && r.kind == kind :: r.pair,
            set r | r in issued && r.kind == kind && r.state == Active :: r.pair,
            set r | r in issued && r.kind == kind && r.state == KeyPublish :: r.pair)
  }

  predicate About(e: KeyList, zone: int, kind: KeyType) {
    e.zone == zone && e.kind == kind
  }

  /** Positions in the log: first listed, found ready, first signing, first no longer signing, first no
      longer listed. A position that is not reached yet is the length of the log. */
  datatype Life = Life(p: nat, r: nat, a: nat, s: nat, d: nat)

  predicate Ordered(l: Life, n: nat) {
    l.p <= l.r <= l.a <= l.s <= l.d <= n
  }

  function Shift(x: nat, n: nat): nat {
    if x == n then n + 1 else x
  }

  /** The same life seen from a log that is one list longer. */
  function Longer(l: Life, n: nat): Life {
    Life(Shift(l.p, n), Shift(l.r, n), Shift(l.a, n), Shift(l.s, n), Shift(l.d, n))
  }

  // ---- ZSKs ----

  /** The zone's lists name the key exactly from p to d, and as signer exactly from a to s. */
  predicate Follows(log: seq<KeyList>, zone: int, k: int, l: Life) {
    forall m :: 0 <= m < |log| && About(log[m], zone, ZSK) ==>
      && (k in log[m].listed <==> l.p <= m < l.d)
      && (k in log[m].signers <==> l.a <= m < l.s)
  }

  predicate Reached(log: seq<KeyList>, zone: int, kind: KeyType, n: nat) {
    n < |log| ==> About(log[n], zone, kind)
  }

  predicate FirstList(log: seq<KeyList>, zone: int, n: nat) {
    forall m :: 0 <= m < n && m < |log| ==> !About(log[m], zone, ZSK)
  }

  /** The timing of a life. A key signs only after it was listed for the publication interval, unless it
      signs from the zone's very first list on; it leaves the lists only the retire interval after it stopped
      signing. Intervals are those of the request that made the move. */
  predicate Timed(log: seq<KeyList>, zone: int, l: Life)
    requires Ordered(l, |log|)
  {
    && Reached(log, zone, ZSK, l.p) && Reached(log, zone, ZSK, l.r) && Reached(log, zone, ZSK, l.a)
    && Reached(log, zone, ZSK, l.s) && Reached(log, zone, ZSK, l.d)
    && (l.r < |log| ==>
          || log[l.p].time + PublicationInterval(log[l.r].policy) <= log[l.r].time
          || (l.p == l.a && FirstList(log, zone, l.a)))
    && (l.d < |log| ==> log[l.s].time + RetireInterval(log[l.d].policy, ZSK) <= log[l.d].time)
  }

  /** How far a life has come when the key's row is in a given state. */
  predicate Tied(log: seq<KeyList>, r: Row, l: Life)
    requires Ordered(l, |log|)
  {
    var n := |log|;
    match r.state
    case Generate => l.p == n
    case Publish => l.p < n == l.r && r.publish == Some(log[l.p].time)
    case Ready => l.r < n == l.a
    case Active => l.a < n == l.s
    case Retire => l.s < n == l.d && r.retire == Some(log[l.s].time)
    case Dead => l.d < n
    case _ => false
  }

  predicate Lives(log: seq<KeyList>, zone: int, k: int, l: Life) {
    Ordered(l, |log|) && Follows(log, zone, k, l) && Timed(log, zone, l)
  }

  /** A list about something else changes no life. */
  lemma OtherList(log: seq<KeyList>, e: KeyList, zone: int, k: int, l: Life)
    requires Lives(log, zone, k, l) && !About(e, zone, ZSK)
    ensures Lives(log + [e], zone, k, Longer(l, |log|))
    ensures forall r: Row :: Tied(log, r, l) ==> Tied(log + [e], r, Longer(l, |log|))
  {
  }

  /** A list that should not name the key and does not. */
  lemma UnnamedList(log: seq<KeyList>, e: KeyList, zone: int, k: int, l: Life)
    requires Lives(log, zone, k, l) && About(e, zone, ZSK) && k !in e.listed && k !in e.signers
    requires l.p == |log| || l.d < |log|
    ensures Lives(log + [e], zone, k, Longer(l, |log|))
  {
  }

  /** The next position of each milestone when a list is issued while the key is in state `s`. */
  function NextLife(l: Life, n: nat, s: State): Life {
    var reach := (x: nat, reached: bool) => if x == n && !reached then n + 1 else x;
    Life(reach(l.p, s != Generate),
         reach(l.r, s !in {Generate, Publish}),
         reach(l.a, s in {Active, Retire, Dead}),
         reach(l.s, s in {Retire, Dead}),
         reach(l.d, s == Dead))
  }

  /** One key through one list: `r` is its row after the first update of the request, `t` at issue. */
  lemma NextList(log: seq<KeyList>, e: KeyList, zone: int, k: int, l: Life, r: Row, t: Row, pair: KeyPair)
    requires Lives(log, zone, k, l) && Tied(log, r, l) && About(e, zone, ZSK)
    requires RowOk(r, pair, e.time) && Zsk.IsZsk(r, zone) && Zsk.DatedRow(r, e.policy) && Zsk.Evolves(r, t, e.time)
    requires k in e.listed <==> t.state in ISSUED
    requires k in e.signers <==> t.state == Active
    requires r.state == Generate && t.state == Active ==> FirstList(log, zone, |log|)
    ensures Lives(log + [e], zone, k, NextLife(l, |log|, t.state))
    ensures Tied(log + [e], t, NextLife(l, |log|, t.state))
  {
    var log' := log + [e];
    var n := |log|;
    var l' := NextLife(l, n, t.state);
    assert forall m :: 0 <= m < n ==> log'[m] == log[m];
    assert Ordered(l', n + 1);
    assert Tied(log', t, l');
    assert Follows(log', zone, k, l');
  }

  // ---- KSKs ----

  /** Positions in the log: first listed, no longer a published standby key, no longer listed; the publication
      date that a standby key waits from; and whether the roll command has moved it on. */
  datatype KskLife = KskLife(p: nat, a: nat, d: nat, seen: int, rushed: bool)

  predicate KskOrdered(l: KskLife, n: nat) {
    l.p <= l.a <= l.d <= n
  }

  function KskLonger(l: KskLife, n: nat): KskLife {
    KskLife(Shift(l.p, n), Shift(l.a, n), Shift(l.d, n), l.seen, l.rushed)
  }

  /** The zone's lists name the key exactly from p to d, and as published standby key exactly from p to a. A
      standby key stops being one only when it becomes active, the publication interval after its publication
      date; and that is the date of its first list, unless the roll command moved it on. */
  predicate KskLives(log: seq<KeyList>, zone: int, k: int, l: KskLife) {
    && KskOrdered(l, |log|)
    && Reached(log, zone, KSK, l.p) && Reached(log, zone, KSK, l.a)
    && (forall m :: 0 <= m < |log| && About(log[m], zone, KSK) ==>
          && (k in log[m].listed <==> l.p <= m < l.d)
          && (k in log[m].standby <==> l.p <= m < l.a))
    && (l.p < l.a < |log| ==> k in log[l.a].signers && l.seen + PublicationInterval(log[l.a].policy) <= log[l.a].time)
    && (l.p < l.a && !l.rushed ==> l.seen == log[l.p].time)
  }

  predicate KskTied(log: seq<KeyList>, r: Row, l: KskLife)
    requires KskOrdered(l, |log|)
  {
    var n := |log|;
    match r.state
    case Generate | DsSub | DsPublish | DsReady => l.p == n
    case Publish | Ready => l.p < n == l.d && l.a == l.p
    case KeyPublish => n == l.a && r.publish == Some(l.seen) && (l.p < n || l.rushed)
    case Active | Retire => l.a < n == l.d
    case Dead => l.d < n
  }

  lemma KskOtherList(log: seq<KeyList>, e: KeyList, zone: int, k: int, l: KskLife)
    requires KskLives(log, zone, k, l) && !About(e, zone, KSK)
    ensures KskLives(log + [e], zone, k, KskLonger(l, |log|))
    ensures forall r: Row :: KskTied(log, r, l) ==> KskTied(log + [e], r, KskLonger(l, |log|))
  {
  }

  lemma KskUnnamedList(log: seq<KeyList>, e: KeyList, zone: int, k: int, l: KskLife)
    requires KskLives(log, zone, k, l) && About(e, zone, KSK) && k !in e.listed && k !in e.standby
    requires l.p == |log| || l.d < |log|
    ensures KskLives(log + [e], zone, k, KskLonger(l, |log|))
  {
  }

  function NextKskLife(l: KskLife, n: nat, t: Row): KskLife {
    var reach := (x: nat, reached: bool) => if x == n && !reached then n + 1 else x;
    var s := t.state;
    var seen := if l.p == n && s == KeyPublish && t.publish.Some? then t.publish.value else l.seen;
    KskLife(reach(l.p, s in ISSUED), reach(l.a, s in ISSUED && s != KeyPublish), reach(l.d, s == Dead), seen, l.rushed)
  }

  /** One KSK through one list. */
  lemma KskNextList(log: seq<KeyList>, e: KeyList, zone: int, k: int, l: KskLife, r: Row, t: Row, pair: KeyPair)
    requires KskLives(log, zone, k, l) && KskTied(log, r, l) && About(e, zone, KSK)
    requires RowOk(r, pair, e.time) && Ksk.IsKsk(r, zone) && Ksk.Evolves(r, t, e.policy, e.time)
    requires r.state == KeyPublish ==> r.active == Later(r.publish, PublicationInterval(e.policy))
    requires k in e.listed <==> t.state in ISSUED
    requires k in e.standby <==> t.state == KeyPublish
    requires k in e.signers <==> t.state == Active
    ensures KskLives(log + [e], zone, k, NextKskLife(l, |log|, t))
    ensures KskTied(log + [e], t, NextKskLife(l, |log|, t))
  {
    var log' := log + [e];
    var n := |log|;
    var l' := NextKskLife(l, n, t);
    assert forall m :: 0 <= m < n ==> log'[m] == log[m];
    assert KskOrdered(l', n + 1);
    assert KskTied(log', t, l');
  }
}
