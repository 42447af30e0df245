/** The key elements of a signer configuration, and what they say of the zone. */
module SignerConfig {
  import opened Tables
  import opened Request
  import opened Lifeline
  import opened RequestSteps
  import opened Runs
  import opened EventSteps
  import Zsk

  /** The number of a state in the database. */
  function Code(s: State): nat {
    match s
    case Generate => 1
    case Publish => 2
    case Ready => 3
    case Active => 4
    case Retire => 5
    case Dead => 6
    case DsSub => 7
    case DsPublish => 8
    case DsReady => 9
    case KeyPublish => 10
  }

  /** One key element: which of its flags are present. */
  datatype Element = Element(ksk: bool, zsk: bool, publish: bool)

  /** `commKeyConfig`. */
  function ElementOf(r: Row): Element {
    Element(r.kind.KSK?, r.kind.ZSK? && Code(r.state) == 4, 1 < Code(r.state) < 6 || Code(r.state) == 10)
  }

  /** The flags of any key: a KSK is told to sign the key set; a ZSK is told to sign the zone while it is active; and a
      key is published from publish to retire, and in keypublish. */
  lemma ElementFlags(r: Row)
    ensures ElementOf(r).ksk <==> r.kind == KSK
    ensures ElementOf(r).zsk <==> r.kind == ZSK && r.state == Active
    ensures ElementOf(r).publish <==> r.state in {Publish, Ready, Active, Retire, KeyPublish}
  {
  }

  /** Every issued key is to be published, and the keys told to sign the zone are those that the list calls its
      signers. */
  lemma ElementsMatchList(rows: seq<Row>, kind: KeyType, c: Call, r: Row)
    requires Unshared(rows) && r in Issue(rows, kind, c.zone)
    ensures ElementOf(r).publish && (ElementOf(r).ksk <==> kind.KSK?)
    ensures ElementOf(r).zsk <==> kind.ZSK? && r.pair in ListOf(Issue(rows, kind, c.zone), kind, c).signers
  {
    hide Issue, ListOf;
    IssueMembers(rows, kind, c.zone);
    var i :| 0 <= i < |rows| && rows[i] == r;
    ListedByState(rows, kind, c, i);
  }

  /** In every run, the tables behind a zone that has had a list configure exactly one key to sign it. */
  lemma OneKeySigns(ws: seq<World>, es: seq<Event>, z: int, n: nat) returns (signer: Row)
    requires Run(ws, es) && Initial(ws[0], z) && n < |ws| && !FirstList(ws[n].log, z, |ws[n].log|)
    ensures signer in Issue(ws[n].db.rows, ZSK, z)
    ensures forall r :: r in Issue(ws[n].db.rows, ZSK, z) ==> (ElementOf(r).zsk <==> r == signer)
  {
    hide Issue, HasLife, HasKskLife;
    RunInv(ws, es, z, n);
    var rows := ws[n].db.rows;
    var a: nat :| Zsk.OneActive(rows, z, a);
    signer := rows[a];
    IssueMembers(rows, ZSK, z);
    forall r | r in Issue(rows, ZSK, z)
      ensures ElementOf(r).zsk <==> r == signer
    {
      var i :| 0 <= i < |rows| && rows[i] == r;
      assert i != a ==> !Zsk.Signs(rows[i], z);
    }
  }
}
