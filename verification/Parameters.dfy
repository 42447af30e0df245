/** The collection of policy parameters and its one-entry cache. A parameter that is not set leaves the
    caller's field as it was; an error stops the collection. */
module Parameters {

  /** The parameters that are read from the table, in the order of the reads; the rollover scheme comes last
      and is always the default. */
  const FIELDS: nat := 19
  const ROLL_DEFAULT: int := 1

  type Failure = s: int | s > 0 witness 1

  /** One parameter: its value, not set, or a positive error status. */
  datatype Lookup = Value(v: int) | Unset | Error(status: Failure)

  type Table = map<(int, int), Lookup>

  function Get(t: Table, policy: int, field: int): Lookup {
    if (policy, field) in t then t[(policy, field)] else Unset
  }

  /** Every parameter of the policy is set. */
  predicate AllSet(t: Table, policy: int) {
    forall i :: 0 <= i < FIELDS ==> Get(t, policy, i).Value?
  }

  predicate Readable(t: Table, policy: int) {
    forall i :: 0 <= i < FIELDS ==> !Get(t, policy, i).Error?
  }

  /** What one caller's fields become, and the status, when the fields from i on are read from the table. */
  function Collected(t: Table, policy: int, data: seq<int>, i: nat): (int, seq<int>)
    requires |data| == FIELDS + 1 && i <= FIELDS
    decreases FIELDS - i
  {
    if i == FIELDS then (0, data[FIELDS := ROLL_DEFAULT])
    else match Get(t, policy, i)
      case Error(status) => (status, data)
      case Unset => Collected(t, policy, data, i + 1)
      case Value(v) => Collected(t, policy, data[i := v], i + 1)
  }

  /** A read that goes to the table. */
  function Direct(t: Table, policy: int, data: seq<int>): (int, seq<int>)
    requires |data| == FIELDS + 1
  {
    Collected(t, policy, data, 0)
  }

  /** Every read succeeds in the end and every value is taken over: the fields one by one. */
  lemma {:induction false} CollectedFields(t: Table, policy: int, data: seq<int>, i: nat)
    requires |data| == FIELDS + 1 && i <= FIELDS && Readable(t, policy)
    ensures var (status, r) := Collected(t, policy, data, i);
            && status == 0 && |r| == FIELDS + 1 && r[19] == 1
            && (forall j :: 0 <= j < i ==> r[j] == data[j])
            && (forall j :: i <= j < FIELDS ==>
                r[j] == if Get(t, policy, j).Value? then Get(t, policy, j).v else data[j])
    decreases FIELDS - i
  {
    if i < FIELDS {
      var lookup := Get(t, policy, i);
      CollectedFields(t, policy, if lookup.Value? then data[i := lookup.v] else data, i + 1);
    }
  }

  // ---- The cache ----

  /** The static variables of the cache. */
  datatype Cache = Cache(enabled: bool, cached: bool, policy: int, content: seq<int>)

  function Switched(c: Cache, enable: bool): Cache {
    if enable && !c.enabled then c.(enabled := true, cached := false)
    else if !enable && c.enabled then c.(enabled := false)
    else c
  }

  predicate Hit(c: Cache, policy: int) {
    c.enabled && c.cached && c.policy == policy
  }

  /** What a read returns, and the cache after it. */
  function Read(c: Cache, t: Table, policy: int, data: seq<int>): (int, seq<int>, Cache)
    requires |data| == FIELDS + 1
  {
    if Hit(c, policy) then (0, c.content, c)
    else
      var (status, r) := Direct(t, policy, data);
      (status, r, if status == 0 && c.enabled then Cache(true, true, policy, r) else c)
  }

  lemma {:induction false} CollectedError(t: Table, policy: int, data: seq<int>, i: nat, e: nat)
    requires |data| == FIELDS + 1 && i <= e < FIELDS && Get(t, policy, e).Error?
    requires forall j :: i <= j < e ==> !Get(t, policy, j).Error?
    ensures var (status, r) := Collected(t, policy, data, i);
            && status == Get(t, policy, e).status && |r| == FIELDS + 1
            && (forall j :: 0 <= j < i || e <= j <= FIELDS ==> r[j] == data[j])
            && (forall j :: i <= j < e ==> r[j] == if Get(t, policy, j).Value? then Get(t, policy, j).v else data[j])
    decreases e - i
  {
    if i < e {
      var lookup := Get(t, policy, i);
      CollectedError(t, policy, if lookup.Value? then data[i := lookup.v] else data, i + 1, e);
    }
  }

  /** The first parameter that cannot be read stops a read that goes to the table: its status is returned, the caller
      has the fields before it, and the cache stays as it was. */
  lemma ErrorStops(c: Cache, t: Table, policy: int, data: seq<int>, e: nat)
    requires |data| == FIELDS + 1 && !Hit(c, policy) && e < FIELDS && Get(t, policy, e).Error?
    requires forall j :: 0 <= j < e ==> !Get(t, policy, j).Error?
    ensures var (status, r, after) := Read(c, t, policy, data);
            && status == Get(t, policy, e).status && after == c && |r| == FIELDS + 1
            && (forall j :: e <= j <= FIELDS ==> r[j] == data[j])
            && (forall j :: 0 <= j < e ==> r[j] == if Get(t, policy, j).Value? then Get(t, policy, j).v else data[j])
  {
    hide Collected;
    CollectedError(t, policy, data, 0, e);
  }

  class ParameterStore {
    var table: Table
    var cache: Cache

    constructor (table: Table)
      ensures this.table == table && !cache.enabled && !cache.cached
    {
      this.table := table;
      this.cache := Cache(false, false, 0, seq(FIELDS + 1, i => 0));
    }

    /** `KsmParameterCollectionCache`. Turning the cache on empties it: no read is answered from it before the table
        has been read again, so whatever happened to the table meanwhile, what the cache offers is current. A call
        that asks for the setting there is changes nothing. */
    method EnableCache(enable: bool)
      modifies this`cache
      ensures cache.enabled == enable
      ensures enable && !old(cache.enabled) ==>
          (forall policy :: !Hit(cache, policy)) && forall t :: Current(World(t, cache))
      ensures !enable ==> forall policy :: !Hit(cache, policy)
      ensures enable == old(cache.enabled) ==> cache == old(cache)
      ensures cache == Switched(old(cache), enable)
    {
      if enable && !cache.enabled {
        cache := cache.(enabled := true, cached := false);
      } else if !enable && cache.enabled {
        cache := cache.(enabled := false);
      }
    }

    /** `KsmParameterCollection`: fills the caller's fields one by one, or copies the cache. */
    method Collect(data: array<int>, policy: int) returns (status: int)
      requires data.Length == FIELDS + 1 && |cache.content| == FIELDS + 1
      modifies this`cache, data
      ensures |cache.content| == FIELDS + 1
      ensures (status, data[..], cache) == Read(old(cache), table, policy, old(data[..]))
    {
      if cache.enabled && cache.cached && cache.policy == policy {
        forall i | 0 <= i < data.Length {
          data[i] := cache.content[i];
        }
        assert data[..] == cache.content;
        return 0;
      }
      for i := 0 to FIELDS
        invariant Direct(table, policy, old(data[..])) == Collected(table, policy, data[..], i)
        invariant cache == old(cache)
      {
        ghost var before := data[..];
        match Get(table, policy, i)
        case Error(s) =>
          return s;
        case Unset =>
        case Value(v) =>
          data[i] := v;
          assert data[..] == before[i := v];
      }
      ghost var before := data[..];
      data[FIELDS] := ROLL_DEFAULT;
      assert data[..] == before[FIELDS := ROLL_DEFAULT];
      if cache.enabled {
        cache := Cache(true, true, policy, data[..]);
      }
      status := 0;
    }
  }

  // ---- Sequences of calls ----

  /** The calls: switching the cache, reading into fields that held `data`, and changes of the table. */
  datatype Event = Enable | Disable | Lookup(policy: int, data: seq<int>) | Change(policy: int, field: int, to: Lookup)

  datatype World = World(table: Table, cache: Cache)

  /** Reads are of policies with all parameters set, and the table changes only while the cache is off. */
  predicate Allowed(w: World, e: Event) {
    match e
    case Lookup(policy, data) => |data| == FIELDS + 1 && AllSet(w.table, policy)
    case Change(_, _, _) => !w.cache.enabled
    case _ => true
  }

  function After(w: World, e: Event): World
    requires Allowed(w, e)
  {
    match e
    case Enable => w.(cache := Switched(w.cache, true))
    case Disable => w.(cache := Switched(w.cache, false))
    case Lookup(policy, data) => w.(cache := Read(w.cache, w.table, policy, data).2)
    case Change(policy, field, to) => w.(table := w.table[(policy, field) := to])
  }

  ghost predicate IsRun(worlds: seq<World>, events: seq<Event>) {
    && |worlds| == |events| + 1 && !worlds[0].cache.enabled
    && forall k :: 0 <= k < |events| ==> Allowed(worlds[k], events[k]) && worlds[k + 1] == After(worlds[k], events[k])
  }

  /** What the cache offers is what the table says. */
  ghost predicate Current(w: World) {
    w.cache.enabled && w.cache.cached ==>
      && AllSet(w.table, w.cache.policy) && |w.cache.content| == FIELDS + 1
      && forall data: seq<int> :: |data| == FIELDS + 1 ==> Direct(w.table, w.cache.policy, data) == (0, w.cache.content)
  }

  /** With all parameters set, what the fields held before does not matter. */
  lemma AllSetDecides(t: Table, policy: int, a: seq<int>, b: seq<int>)
    requires AllSet(t, policy) && |a| == |b| == FIELDS + 1
    ensures Direct(t, policy, a) == Direct(t, policy, b) && Direct(t, policy, a).0 == 0
    ensures |Direct(t, policy, a).1| == FIELDS + 1
  {
    CollectedFields(t, policy, a, 0);
    CollectedFields(t, policy, b, 0);
    assert Direct(t, policy, a).1 == Direct(t, policy, b).1;
  }

  lemma StepCurrent(w: World, e: Event)
    requires Current(w) && Allowed(w, e)
    ensures Current(After(w, e))
  {
    if e.Lookup? && !Hit(w.cache, e.policy) {
      forall data: seq<int> | |data| == FIELDS + 1
        ensures Direct(w.table, e.policy, data) == Direct(w.table, e.policy, e.data)
      {
        AllSetDecides(w.table, e.policy, data, e.data);
      }
      AllSetDecides(w.table, e.policy, e.data, e.data);
    }
  }

  /** In every sequence of calls each read, cached or not, returns what a direct read returns. */
  lemma {:induction false} ReadsAreDirect(worlds: seq<World>, events: seq<Event>, k: nat)
    requires IsRun(worlds, events) && k < |worlds|
    ensures Current(worlds[k])
    ensures k < |events| && events[k].Lookup? ==>
      var (status, r, _) := Read(worlds[k].cache, worlds[k].table, events[k].policy, events[k].data);
      (status, r) == Direct(worlds[k].table, events[k].policy, events[k].data)
  {
    hide Direct;
    if k > 0 {
      ReadsAreDirect(worlds, events, k - 1);
      StepCurrent(worlds[k - 1], events[k - 1]);
    }
  }

  /** Where a parameter is not set, a second, cached, read of the same policy returns what a direct read does
      exactly when both callers' fields agree on the parameters that are not set: the cache keeps the
      leftovers of the first caller. */
  lemma UnsetIsRemembered(c: Cache, t: Table, policy: int, first: seq<int>, second: seq<int>)
    requires c.enabled && !Hit(c, policy) && Readable(t, policy) && |first| == |second| == FIELDS + 1
    ensures var after := Read(c, t, policy, first).2;
            Read(after, t, policy, second).1 == Direct(t, policy, second).1 <==>
              forall i :: 0 <= i < FIELDS && Get(t, policy, i).Unset? ==> first[i] == second[i]
  {
    CollectedFields(t, policy, first, 0);
    CollectedFields(t, policy, second, 0);
    var a, b := Direct(t, policy, first).1, Direct(t, policy, second).1;
    if a == b {
      forall i | 0 <= i < FIELDS && Get(t, policy, i).Unset?
        ensures first[i] == second[i]
      {
        assert a[i] == first[i] && b[i] == second[i];
      }
    }
  }
}
