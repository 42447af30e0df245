/** The estimated dates: what `KsmUpdate` writes for a key in each state. */
module Update {
  import opened Tables

  const INT_MAX: int := 0x7fff_ffff

  /** How long a DNSKEY must be in the zone before every cache has it. */
  function PublicationInterval(p: Policy): nat {
    p.zskTtl + p.propDelay + p.pubSafety
  }

  /** How long a DS record must be with the parent before every cache has it. */
  function ParentInterval(p: Policy): nat {
    p.kskTtl + p.kskPropDelay + p.pubSafety
  }

  /** How long a key that stopped signing must stay in the zone. */
  function RetireInterval(p: Policy, kind: KeyType): nat {
    match kind
    case ZSK => p.zskSigLife + p.propDelay + p.retSafety
    case KSK => p.dsTtl + p.kskPropDelay + p.retSafety
  }

  /** The lifetime of an active key; a lifetime of zero stands for "for ever". */
  function Lifetime(p: Policy, kind: KeyType): nat {
    var life := if kind.ZSK? then p.zskLife else p.kskLife;
    if life == 0 then INT_MAX - 1 else life
  }

  /** How long a key in the publish state waits to become ready. */
  function ReadyInterval(p: Policy, kind: KeyType): nat {
    if kind.ZSK? || p.kskRoll.DoubleDnskey? then PublicationInterval(p)
    else if p.kskRoll.DoubleDs? then ParentInterval(p)
    else 0
  }

  /** A date moved by an interval; NULL stays NULL. */
  function Later(date: Option<int>, interval: int): Option<int> {
    match date
    case None => None
    case Some(t) => Some(t + interval)
  }

  /** One row after its estimated date has been recomputed. */
  function UpdatedRow(r: Row, p: Policy, fixedDate: bool): Row {
    match r.state
    case Publish => r.(ready := Later(r.publish, ReadyInterval(p, r.kind)))
    case Active => if fixedDate then r else r.(retire := Later(r.active, Lifetime(p, r.kind)))
    case Retire => r.(dead := Later(r.retire, RetireInterval(p, r.kind)))
    case DsPublish => if r.kind.ZSK? then r else r.(ready := Later(r.publish, ParentInterval(p)))
    case KeyPublish => r.(active := Later(r.publish, PublicationInterval(p)))
    case _ => r
  }

  predicate HasFixedDate(pairs: map<int, KeyPair>, r: Row) {
    r.pair in pairs && pairs[r.pair].fixedDate
  }

  /** All rows of a zone with their estimated dates recomputed. */
  function Updated(db: Db, p: Policy, zone: int): (rows: seq<Row>)
    ensures |rows| == |db.rows|
  {
    seq(|db.rows|, i requires 0 <= i < |db.rows| =>
      if db.rows[i].zone == zone then UpdatedRow(db.rows[i], p, HasFixedDate(db.pairs, db.rows[i])) else db.rows[i])
  }

  /** Recomputing twice with the same parameters changes nothing more: the second update of a request is
      only needed for the keys that moved. */
  lemma UpdateIdempotent(db: Db, p: Policy, zone: int)
    ensures Updated(db.(rows := Updated(db, p, zone)), p, zone) == Updated(db, p, zone)
  {
  }
}
