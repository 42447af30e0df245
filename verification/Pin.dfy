/** The shared PIN store: many processes, one semaphore, and slots of shared memory that are read and written
    one character at a time. A run interleaves the steps of the processes in any order. The abstract content
    of the slots, one string each, is kept as a history variable beside the memory. */
module Pin {

  const MAX_SESSIONS: nat := 100
  const MAX_LENGTH: nat := 255
  const SIZE: nat := MAX_LENGTH + 1

  datatype Mode = First | Retry | Save

  /** The two entry points: one asks the user when there is no PIN, the other gives up. */
  datatype Entry = Prompt | Check

  datatype Call = Call(entry: Entry, id: nat, mode: Mode)

  /** What a call returned. */
  datatype Reply = Null | Found | Entered | Stored

  datatype Pc =
    | Idle(reply: Reply)
    | Open(c: Call)                     // before semget
    | Init(c: Call)                     // created the semaphore, before SETVAL
    | Stat(c: Call)                     // before IPC_STAT and the permission check
    | Lock(c: Call)                     // before the first semop
    | Attach(c: Call)                   // locked, before the memory is attached
    | Start(c: Call)                    // before the first look at the slot
    | Scan(c: Call, n: nat)             // strlen
    | Fetch(c: Call, n: nat, i: nat)    // memcpy from the slot
    | Clear(c: Call, i: nat)            // memset of the slot
    | Store(c: Call, i: nat)            // memcpy to the slot
    | Release(c: Call)                  // before the semop that unlocks for the prompt
    | Ask(c: Call)                      // prompting, unlocked
    | Relock(c: Call, text: seq<int>)   // before the semop after the prompt
    | Unlock(c: Call, reply: Reply)     // before the last semop

  /** A process: where it is, its own PIN buffer, and how often it has locked and unlocked. */
  datatype Proc = Proc(pc: Pc, pin: seq<int>, locks: nat, unlocks: nat)

  datatype Sem = Absent | Sem(value: int, ready: bool)

  datatype World = World(sem: Sem, slots: seq<seq<int>>, procs: map<int, Proc>, vault: seq<seq<int>>)

  // ---- Buffers ----

  /** A buffer that ends in NUL. */
  predicate Buffer(b: seq<int>) {
    |b| == SIZE && b[MAX_LENGTH] == 0
  }

  function Zeros(): (b: seq<int>)
    ensures Buffer(b) && forall i :: 0 <= i < SIZE ==> b[i] == 0
  {
    seq(SIZE, i => 0)
  }

  /** The C string in a buffer. */
  function Str(b: seq<int>): seq<int> {
    if b == [] || b[0] == 0 then [] else [b[0]] + Str(b[1..])
  }

  /** A buffer that was zeroed before the text, cut to length, was copied into it. */
  function Padded(text: seq<int>): (b: seq<int>)
    ensures Buffer(b)
  {
    seq(SIZE, i requires 0 <= i < SIZE => if i < MAX_LENGTH && i < |text| then text[i] else 0)
  }

  lemma {:induction false} StrIs(b: seq<int>, n: nat)
    requires n < |b| && b[n] == 0 && forall j :: 0 <= j < n ==> b[j] != 0
    ensures Str(b) == b[..n]
  {
    if n > 0 {
      StrIs(b[1..], n - 1);
      assert b[..n] == [b[0]] + b[1..][..n - 1];
    }
  }

  lemma StrPadded(text: seq<int>)
    requires forall i :: 0 <= i < |text| ==> text[i] != 0
    ensures Str(Padded(text)) == if |text| <= 255 then text else text[..255]
  {
    var n := if |text| <= MAX_LENGTH then |text| else MAX_LENGTH;
    StrIs(Padded(text), n);
    assert Padded(text)[..n] == text[..n];
  }

  // ---- Steps ----

  /** What a step may depend on besides the state: a new call, a refusal by the system, or the user's text. */
  datatype Choice = Go | Fail | Begin(c: Call, named: bool) | Type(text: seq<int>)

  /** What one process sees: itself and all that is shared. */
  datatype View = View(q: Proc, sem: Sem, slots: seq<seq<int>>, vault: seq<seq<int>>)

  predicate CanAct(m: View, a: Choice) {
    match m.q.pc
    case Idle(_) => a.Begin?
    case Open(_) => a.Go? || a.Fail?
    case Init(_) => a.Go? || a.Fail?
    case Stat(_) => a.Go? || a.Fail?
    case Lock(_) => a.Go? && m.sem.Sem? && m.sem.value > 0
    case Attach(_) => a.Go? || a.Fail?
    case Ask(_) => a.Fail? || (a.Type? && forall i :: 0 <= i < |a.text| ==> a.text[i] != 0)
    case Relock(_, _) => a.Go? && m.sem.Sem? && m.sem.value > 0
    case _ => a.Go? && m.sem.Sem?
  }

  function At(m: View, pc: Pc): View {
    m.(q := m.q.(pc := pc))
  }

  function Locked(m: View, pc: Pc): View
    requires m.sem.Sem?
  {
    m.(q := m.q.(pc := pc, locks := m.q.locks + 1), sem := m.sem.(value := m.sem.value - 1))
  }

  function Unlocked(m: View, pc: Pc): View
    requires m.sem.Sem?
  {
    m.(q := m.q.(pc := pc, unlocks := m.q.unlocks + 1), sem := m.sem.(value := m.sem.value + 1))
  }

  function Written(m: View, id: nat, i: nat, x: int, pc: Pc): View
    requires id < |m.slots| && i < |m.slots[id]|
  {
    m.(q := m.q.(pc := pc), slots := m.slots[id := m.slots[id][i := x]])
  }

  /** Beginning a call: bad arguments are refused, and a check has nothing to save. */
  function Begun(m: View, c: Call, named: bool): View {
    if c.id >= MAX_SESSIONS || !named then At(m, Idle(Null))
    else if c.entry.Check? && c.mode.Save? then m.(q := m.q.(pc := Idle(Stored), pin := Zeros()))
    else At(m, Open(c))
  }

  /** The first look at the slot. */
  function Started(m: View, c: Call): View
    requires c.id < |m.slots| && |m.slots[c.id]| == SIZE
  {
    var empty := m.slots[c.id][0] == 0;
    match c.entry
    case Prompt =>
      if c.mode.Save? then At(m, Store(c, 0))
      else if c.mode.First? && !empty then At(m, Scan(c, 0))
      else if c.mode.Retry? && !empty then At(m, Clear(c, 0))
      else At(m, Release(c))
    case Check =>
      var wiped := m.(q := m.q.(pin := Zeros()));
      if empty then At(wiped, Unlock(c, Null))
      else if c.mode.Retry? then At(wiped, Clear(c, 0))
      else At(wiped, Scan(c, 0))
  }

  predicate MemoryOk(slots: seq<seq<int>>, vault: seq<seq<int>>) {
    |slots| == MAX_SESSIONS && |vault| == MAX_SESSIONS && forall id :: 0 <= id < MAX_SESSIONS ==> Buffer(slots[id])
  }

  /** The process is in the middle of a proper call, and its counters are within the buffers. */
  predicate PcOk(pc: Pc) {
    match pc
    case Idle(_) => true
    case Scan(c, n) => c.id < MAX_SESSIONS && c.mode.First? && n <= MAX_LENGTH
    case Fetch(c, n, i) => c.id < MAX_SESSIONS && c.mode.First? && i <= n <= MAX_LENGTH
    case Clear(c, i) => c.id < MAX_SESSIONS && c.mode.Retry? && i <= SIZE
    case Store(c, i) => c.id < MAX_SESSIONS && c.mode.Save? && c.entry.Prompt? && i <= SIZE
    case _ => pc.c.id < MAX_SESSIONS && !(pc.c.entry.Check? && pc.c.mode.Save?)
  }

  predicate InBounds(m: View) {
    MemoryOk(m.slots, m.vault) && Buffer(m.q.pin) && PcOk(m.q.pc)
  }

  /** One step of a process. */
  function Act(m: View, a: Choice): View
    requires CanAct(m, a) && InBounds(m)
  {
    var q := m.q;
    match q.pc
    case Idle(_) => Begun(m, a.c, a.named)
    case Open(c) =>
      if a.Fail? then At(m, Idle(Null))
      else if m.sem.Absent? then At(m, Init(c)).(sem := Sem(0, false))
      else At(m, Stat(c))
    case Init(c) => if a.Fail? then At(m, Idle(Null)) else At(m, Stat(c)).(sem := Sem(1, true))
    case Stat(c) => At(m, if a.Fail? then Idle(Null) else Lock(c))
    case Lock(c) => Locked(m, Attach(c))
    case Attach(c) => At(m, if a.Fail? then Unlock(c, Null) else Start(c))
    case Start(c) => Started(m, c)
    case Scan(c, n) => At(m, if m.slots[c.id][n] != 0 then Scan(c, n + 1) else Fetch(c, n, 0))
    case Fetch(c, n, i) =>
      if i < n then m.(q := q.(pin := q.pin[i := m.slots[c.id][i]], pc := Fetch(c, n, i + 1)))
      else m.(q := q.(pin := q.pin[n := 0], pc := Unlock(c, Found)))
    case Clear(c, i) =>
      if i < SIZE then Written(m, c.id, i, 0, Clear(c, i + 1))
      else At(m, if c.entry.Prompt? then Release(c) else Unlock(c, Null)).(vault := m.vault[c.id := []])
    case Store(c, i) =>
      if i < SIZE then Written(m, c.id, i, q.pin[i], Store(c, i + 1))
      else m.(q := q.(pin := Zeros(), pc := Unlock(c, Stored)), vault := m.vault[c.id := Str(q.pin)])
    case Release(c) => Unlocked(m, Ask(c))
    case Ask(c) => At(m, if a.Fail? then Idle(Null) else Relock(c, a.text))
    case Relock(c, text) => Locked(m.(q := q.(pin := Padded(text))), Unlock(c, Entered))
    case Unlock(c, reply) => Unlocked(m, Idle(reply))
  }

  function ViewOf(w: World, p: int): View
    requires p in w.procs
  {
    View(w.procs[p], w.sem, w.slots, w.vault)
  }

  /** The process can take the step. */
  predicate Offered(w: World, p: int, a: Choice) {
    p in w.procs && CanAct(ViewOf(w, p), a)
  }

  /** It can, and stays inside the memory. */
  predicate Enabled(w: World, p: int, a: Choice) {
    Offered(w, p, a) && InBounds(ViewOf(w, p))
  }

  function Step(w: World, p: int, a: Choice): World
    requires Enabled(w, p, a)
  {
    var m := Act(ViewOf(w, p), a);
    World(m.sem, m.slots, w.procs[p := m.q], m.vault)
  }

  // ---- The invariant ----

  /** The process is between a lock and the unlock that belongs to it. */
  predicate Holds(pc: Pc) {
    match pc
    case Idle(_) | Open(_) | Init(_) | Stat(_) | Lock(_) | Ask(_) | Relock(_, _) => false
    case _ => true
  }

  function Holders(w: World): set<int> {
    set p | p in w.procs && Holds(w.procs[p].pc)
  }

  function Creators(w: World): set<int> {
    set p | p in w.procs && w.procs[p].pc.Init?
  }

  /** Before the semaphore is initialised nobody holds it, and its creator may have failed; from then on its value
      and the holders make one. */
  predicate SemOk(w: World) {
    match w.sem
    case Absent => |Holders(w)| == 0 && |Creators(w)| == 0
    case Sem(value, false) => value == 0 && |Holders(w)| == 0 && |Creators(w)| <= 1
    case Sem(value, true) => value >= 0 && value + |Holders(w)| == 1 && |Creators(w)| == 0
  }

  /** The slot is being rewritten. */
  predicate Writing(pc: Pc, id: nat) {
    (pc.Clear? || pc.Store?) && pc.c.id == id
  }

  /** How far a holder has come with its slot. */
  predicate Progress(m: View)
    requires InBounds(m)
  {
    var q := m.q;
    match q.pc
    case Scan(c, n) => m.slots[c.id][0] != 0 && forall j :: 0 <= j < n ==> m.slots[c.id][j] != 0
    case Fetch(c, n, i) =>
      && n > 0 && (forall j :: 0 <= j < n ==> m.slots[c.id][j] != 0) && m.slots[c.id][n] == 0
      && q.pin[..i] == m.slots[c.id][..i]
    case Clear(c, i) => forall j :: 0 <= j < i ==> m.slots[c.id][j] == 0
    case Store(c, i) => m.slots[c.id][..i] == q.pin[..i]
    case Unlock(c, reply) => reply.Found? ==> Str(q.pin) == m.vault[c.id] && Str(q.pin) != []
    case _ => true
  }

  /** Every unlock follows its lock. */
  predicate Balanced(q: Proc) {
    q.locks == q.unlocks + if Holds(q.pc) then 1 else 0
  }

  predicate ViewOk(m: View) {
    InBounds(m) && Progress(m) && Balanced(m.q)
  }

  predicate ProcOk(w: World, p: int) {
    p in w.procs && ViewOk(ViewOf(w, p))
  }

  /** A slot that nobody rewrites holds the string it should. */
  predicate VaultOk(w: World) {
    && |w.slots| == MAX_SESSIONS && |w.vault| == MAX_SESSIONS
    && forall id :: 0 <= id < MAX_SESSIONS ==>
         || w.vault[id] == Str(w.slots[id])
         || exists p :: p in w.procs && Writing(w.procs[p].pc, id)
  }

  predicate Inv(w: World) {
    SemOk(w) && VaultOk(w) && forall p :: p in w.procs ==> ProcOk(w, p)
  }

  predicate Initial(w: World) {
    && w.sem.Absent?
    && |w.slots| == MAX_SESSIONS && |w.vault| == MAX_SESSIONS
    && (forall id :: 0 <= id < MAX_SESSIONS ==> w.slots[id] == Zeros() && w.vault[id] == [])
    && forall p :: p in w.procs ==> w.procs[p] == Proc(Idle(Null), Zeros(), 0, 0)
  }

  lemma InitialInv(w: World)
    requires Initial(w)
    ensures Inv(w)
  {
    assert forall p :: p !in Holders(w) && p !in Creators(w);
    Empty(Holders(w));
    Empty(Creators(w));
  }

  lemma Empty(s: set<int>)
    requires forall p :: p !in s
    ensures |s| == 0
  {
    var none: set<int> := {};
    assert forall p :: p in s <==> p in none;
    assert s == none;
  }

  lemma Single(s: set<int>, p: int, r: int)
    requires |s| <= 1 && p in s && r in s
    ensures p == r && |s| == 1
  {
    var rest := s - {p};
    assert s == {p} + rest;
    assert p != r ==> r in rest;
  }

  lemma SizeWith(s: set<int>, p: int)
    ensures |s + {p}| == |s| + if p in s then 0 else 1
    ensures |s - {p}| == |s| - if p in s then 1 else 0
  {
    if p in s {
      assert s + {p} == s;
    } else {
      assert s - {p} == s;
    }
  }

  /** At most one process holds the semaphore. */
  lemma OneHolder(w: World, p: int, r: int)
    requires SemOk(w) && p in Holders(w) && r in Holders(w)
    ensures p == r && |Holders(w)| == 1 && w.sem.Sem? && w.sem.ready && w.sem.value == 0
  {
    hide Holds;
    Single(Holders(w), p, r);
  }

  // ---- One step ----

  /** Only the process itself is changed by its step. */
  ghost predicate OnlyChanges(w: World, v: World, p: int) {
    && p in w.procs && (forall r :: r in w.procs <==> r in v.procs)
    && forall r :: r in w.procs && r != p ==> v.procs[r] == w.procs[r]
  }

  /** Locking, unlocking and creating: how the sets of holders and creators follow the process. */
  lemma Members(w: World, v: World, p: int)
    requires OnlyChanges(w, v, p)
    ensures |Holders(v)|
      == |Holders(w)| + (if Holds(v.procs[p].pc) then 1 else 0) - (if Holds(w.procs[p].pc) then 1 else 0)
    ensures |Creators(v)|
      == |Creators(w)| + (if v.procs[p].pc.Init? then 1 else 0) - (if w.procs[p].pc.Init? then 1 else 0)
  {
    hide Holds;
    var h, k := Holders(w), Creators(w);
    SizeWith(h, p);
    SizeWith(k, p);
    assert Holders(v) == if Holds(v.procs[p].pc) then h + {p} else h - {p} by {
      assert forall r :: r in Holders(v) <==> r in if Holds(v.procs[p].pc) then h + {p} else h - {p};
    }
    assert Creators(v) == if v.procs[p].pc.Init? then k + {p} else k - {p} by {
      assert forall r :: r in Creators(v) <==> r in if v.procs[p].pc.Init? then k + {p} else k - {p};
    }
  }

  /** How a step moves the semaphore and the process through it. */
  predicate SemMoved(was: Pc, sem: Sem, to: Pc, after: Sem) {
    || (to.Init? && !was.Init? && sem.Absent? && after == Sem(0, false) && !Holds(was) && !Holds(to))
    || (was.Init? && !to.Init? && after == Sem(1, true) && !Holds(was) && !Holds(to))
    || (!to.Init? && after == sem && (Holds(was) <==> Holds(to)))
    || (&& !was.Init? && !to.Init? && sem.Sem? && sem.value > 0 && !Holds(was) && Holds(to)
        && after == sem.(value := sem.value - 1))
    || (&& !was.Init? && !to.Init? && sem.Sem? && Holds(was) && !Holds(to) && after == sem.(value := sem.value + 1))
  }

  lemma MovesOutside(m: View, a: Choice)
    requires CanAct(m, a) && InBounds(m) && !Holds(m.q.pc)
    ensures SemMoved(m.q.pc, m.sem, Act(m, a).q.pc, Act(m, a).sem)
  {
    hide Str, Padded, MemoryOk, Started;
  }

  lemma MovesInside(m: View, a: Choice)
    requires CanAct(m, a) && InBounds(m) && Holds(m.q.pc)
    ensures SemMoved(m.q.pc, m.sem, Act(m, a).q.pc, Act(m, a).sem)
  {
    hide Str, Padded, Begun;
  }

  lemma SemMoves(m: View, a: Choice)
    requires CanAct(m, a) && InBounds(m)
    ensures SemMoved(m.q.pc, m.sem, Act(m, a).q.pc, Act(m, a).sem)
  {
    hide *;
    if Holds(m.q.pc) {
      MovesInside(m, a);
    } else {
      MovesOutside(m, a);
    }
  }

  lemma SemStep(w: World, p: int, a: Choice)
    requires Enabled(w, p, a) && SemOk(w)
    ensures SemOk(Step(w, p, a))
  {
    hide Act, CanAct, InBounds, Holds, Holders, Creators;
    var v := Step(w, p, a);
    Members(w, v, p);
    SemMoves(ViewOf(w, p), a);
  }

  /** What a step leaves alone, by the kind of step. */
  lemma Untouched(m: View, a: Choice)
    requires CanAct(m, a) && InBounds(m)
    ensures MemoryOk(Act(m, a).slots, Act(m, a).vault)
    ensures !Holds(m.q.pc) ==> Act(m, a).slots == m.slots && Act(m, a).vault == m.vault
    ensures forall id: nat :: id < MAX_SESSIONS && !Writing(m.q.pc, id) ==>
              Act(m, a).slots[id] == m.slots[id] && Act(m, a).vault[id] == m.vault[id]
  {
    hide Str, Padded, Balanced;
  }

  /** A slot that the holder does not rewrite is not rewritten by anyone. */
  lemma HolderSees(w: World, p: int, id: nat)
    requires SemOk(w) && VaultOk(w) && id < MAX_SESSIONS && p in w.procs && Holds(w.procs[p].pc)
    requires !Writing(w.procs[p].pc, id)
    ensures w.vault[id] == Str(w.slots[id])
  {
    hide SemOk, Str;
    if r :| r in w.procs && Writing(w.procs[r].pc, id) {
      OneHolder(w, p, r);
    }
  }

  lemma SelfBounds(m: View, a: Choice)
    requires ViewOk(m) && CanAct(m, a)
    ensures InBounds(Act(m, a))
  {
    hide Str, Balanced;
    Untouched(m, a);
  }

  lemma SelfBalanced(m: View, a: Choice)
    requires ViewOk(m) && CanAct(m, a)
    ensures Balanced(Act(m, a).q)
  {
    hide Str, Progress, MemoryOk, Padded;
  }

  lemma SelfProgress(m: View, a: Choice)
    requires ViewOk(m) && CanAct(m, a) && InBounds(Act(m, a))
    requires m.q.pc.Fetch? ==> m.vault[m.q.pc.c.id] == Str(m.slots[m.q.pc.c.id])
    ensures Progress(Act(m, a))
  {
    hide Str, Padded, Balanced;
    var q := m.q;
    if q.pc.Fetch? && q.pc.i == q.pc.n {
      StrIs(m.slots[q.pc.c.id], q.pc.n);
      StrIs(q.pin[q.pc.n := 0], q.pc.n);
    }
  }

  /** The process that moves keeps its own part of the invariant. */
  lemma SelfStep(w: World, p: int, a: Choice)
    requires Inv(w) && Enabled(w, p, a)
    ensures ProcOk(Step(w, p, a), p)
  {
    hide Str, SemOk, Act, InBounds, Progress, CanAct, Balanced;
    assert ProcOk(w, p);
    SelfBounds(ViewOf(w, p), a);
    SelfBalanced(ViewOf(w, p), a);
    var pc := w.procs[p].pc;
    if pc.Fetch? {
      CallOk(ViewOf(w, p));
      HolderSees(w, p, pc.c.id);
    }
    SelfProgress(ViewOf(w, p), a);
  }

  lemma CallOk(m: View)
    requires InBounds(m) && !m.q.pc.Idle?
    ensures m.q.pc.c.id < MAX_SESSIONS
  {
  }

  /** The others keep theirs: whoever is not the holder has no progress to lose. */
  lemma OtherStep(w: World, p: int, a: Choice, r: int)
    requires Inv(w) && Enabled(w, p, a) && r in w.procs && r != p
    ensures ProcOk(Step(w, p, a), r)
  {
    hide Str, SemOk, Act, CanAct, MemoryOk, Buffer, PcOk;
    assert ProcOk(w, r);
    Untouched(ViewOf(w, p), a);
    if Holds(w.procs[p].pc) && Holds(w.procs[r].pc) {
      OneHolder(w, p, r);
    }
  }

  lemma VaultStep(w: World, p: int, a: Choice)
    requires Inv(w) && Enabled(w, p, a)
    ensures VaultOk(Step(w, p, a))
  {
    hide Str, SemOk, Act, CanAct, Progress, PcOk;
    var v := Step(w, p, a);
    Untouched(ViewOf(w, p), a);
    forall id | 0 <= id < MAX_SESSIONS
      ensures v.vault[id] == Str(v.slots[id]) || exists r :: r in v.procs && Writing(v.procs[r].pc, id)
    {
      if Writing(w.procs[p].pc, id) {
        assert ProcOk(w, p);
        WriterStep(ViewOf(w, p), a, id);
        assert v.procs[p] == Act(ViewOf(w, p), a).q;
      } else if w.vault[id] != Str(w.slots[id]) {
        var r :| r in w.procs && Writing(w.procs[r].pc, id);
        assert Writing(v.procs[r].pc, id);
      }
    }
  }

  /** A writer goes on writing, or leaves the slot as the vault says. */
  lemma WriterStep(m: View, a: Choice, id: nat)
    requires CanAct(m, a) && ViewOk(m) && id < MAX_SESSIONS && Writing(m.q.pc, id)
    ensures var v := Act(m, a);
      |v.slots| == |v.vault| == MAX_SESSIONS && (Writing(v.q.pc, id) || v.vault[id] == Str(v.slots[id]))
  {
    hide Str;
    var q := m.q;
    if q.pc.Clear? && q.pc.i == SIZE {
      StrIs(m.slots[id], 0);
      assert m.slots[id][..0] == [];
    } else if q.pc.Store? && q.pc.i == SIZE {
      assert m.slots[id][..SIZE] == m.slots[id] && q.pin[..SIZE] == q.pin;
    }
  }

  /** Every step of every process keeps the invariant. */
  lemma StepInv(w: World, p: int, a: Choice)
    requires Inv(w) && Enabled(w, p, a)
    ensures Inv(Step(w, p, a))
  {
    hide ViewOk, Act, Enabled, SemOk, VaultOk;
    var v := Step(w, p, a);
    SemStep(w, p, a);
    SelfStep(w, p, a);
    VaultStep(w, p, a);
    forall r | r in v.procs && r != p
      ensures ProcOk(v, r)
    {
      OtherStep(w, p, a, r);
    }
  }

  // ---- Runs ----

  /** Step k of a run is taken by process who[k] with choice what[k]. After a step outside the memory anything
      could follow. */
  ghost predicate IsRun(run: seq<World>, who: seq<int>, what: seq<Choice>) {
    && |run| == |who| + 1 == |what| + 1 && Initial(run[0])
    && (forall k :: 0 <= k < |who| ==> Offered(run[k], who[k], what[k]))
    && forall k :: 0 <= k < |who| && Enabled(run[k], who[k], what[k]) ==> run[k + 1] == Step(run[k], who[k], what[k])
  }

  /** Every reachable state satisfies the invariant, and no step leaves the memory. */
  lemma {:induction false} RunInv(run: seq<World>, who: seq<int>, what: seq<Choice>, k: nat)
    requires IsRun(run, who, what) && k < |run|
    ensures Inv(run[k])
    ensures k < |who| ==> Enabled(run[k], who[k], what[k]) && run[k + 1] == Step(run[k], who[k], what[k])
  {
    hide Inv, Initial, Step, Offered, InBounds;
    if k == 0 {
      InitialInv(run[0]);
    } else {
      RunInv(run, who, what, k - 1);
      StepInv(run[k - 1], who[k - 1], what[k - 1]);
    }
    if k < |who| {
      InvInBounds(run[k], who[k], what[k]);
    }
  }

  lemma InvInBounds(w: World, p: int, a: Choice)
    requires Inv(w) && Offered(w, p, a)
    ensures Enabled(w, p, a)
  {
    hide CanAct;
    assert ProcOk(w, p);
  }

  /** The step reads or writes the process's slot. */
  predicate Touches(pc: Pc) {
    pc.Start? || pc.Scan? || pc.Fetch? || pc.Clear? || pc.Store?
  }

  /** In every run: once the semaphore is initialised its value and the number of holders make one; whoever
      touches a slot is the only holder; and between calls a process has unlocked as often as it has locked. */
  lemma MutualExclusion(run: seq<World>, who: seq<int>, what: seq<Choice>, k: nat)
    requires IsRun(run, who, what) && k < |run|
    ensures run[k].sem.Sem? && run[k].sem.ready ==> run[k].sem.value + |Holders(run[k])| == 1
    ensures k < |who| && Touches(run[k].procs[who[k]].pc) ==> forall p :: p in Holders(run[k]) <==> p == who[k]
    ensures k < |who| && (run[k + 1].slots != run[k].slots) ==> Touches(run[k].procs[who[k]].pc)
    ensures forall p :: p in run[k].procs && run[k].procs[p].pc.Idle? ==>
        run[k].procs[p].locks == run[k].procs[p].unlocks
  {
    hide Act, CanAct, VaultOk, InBounds, Progress;
    var w := run[k];
    RunInv(run, who, what, k);
    if k < |who| {
      Untouched(ViewOf(w, who[k]), what[k]);
      OnlyTouchesWrite(ViewOf(w, who[k]), what[k]);
      if Touches(w.procs[who[k]].pc) {
        forall p | p in Holders(w)
          ensures p == who[k]
        {
          OneHolder(w, p, who[k]);
        }
      }
    }
    forall p | p in w.procs
      ensures Balanced(w.procs[p])
    {
      assert ProcOk(w, p);
    }
  }

  lemma OnlyTouchesWrite(m: View, a: Choice)
    requires CanAct(m, a) && InBounds(m)
    ensures Act(m, a).slots != m.slots ==> Touches(m.q.pc)
  {
    hide Str, Padded, MemoryOk;
  }

  /** The step completes a save or the removal of a PIN. */
  predicate Rewrites(pc: Pc, id: nat) {
    Writing(pc, id) && pc.i == SIZE
  }

  lemma {:induction false} VaultKept(run: seq<World>, who: seq<int>, what: seq<Choice>, i: nat, j: nat, id: nat)
    requires IsRun(run, who, what) && i <= j < |run| && id < MAX_SESSIONS
    requires forall k :: i <= k < j ==> !Rewrites(run[k].procs[who[k]].pc, id)
    ensures |run[i].vault| == MAX_SESSIONS && |run[j].vault| == MAX_SESSIONS && run[j].vault[id] == run[i].vault[id]
  {
    hide Act, SemOk, ProcOk, CanAct, InBounds;
    RunInv(run, who, what, j);
    if i < j {
      RunInv(run, who, what, j - 1);
      VaultKept(run, who, what, i, j - 1, id);
      VaultUnlessRewritten(ViewOf(run[j - 1], who[j - 1]), what[j - 1], id);
    }
  }

  lemma VaultUnlessRewritten(m: View, a: Choice, id: nat)
    requires CanAct(m, a) && InBounds(m) && id < MAX_SESSIONS && !Rewrites(m.q.pc, id)
    ensures |m.vault| == |Act(m, a).vault| == MAX_SESSIONS && Act(m, a).vault[id] == m.vault[id]
  {
    hide Str, Padded;
  }

  /** In every run, a PIN that was saved in a slot is what later first reads of that slot find and return,
      until the next save or removal in that slot is complete. */
  lemma SavedPinIsRead(run: seq<World>, who: seq<int>, what: seq<Choice>, i: nat, j: nat, id: nat)
    requires IsRun(run, who, what) && i < j < |who| && id < MAX_SESSIONS
    requires run[i].procs[who[i]].pc == Store(Call(Prompt, id, Save), SIZE) && Str(run[i].procs[who[i]].pin) != []
    requires forall k :: i < k < j ==> !Rewrites(run[k].procs[who[k]].pc, id)
    requires Touches(run[j].procs[who[j]].pc) && run[j].procs[who[j]].pc.c.id == id
    requires run[j].procs[who[j]].pc.c.mode.First?
    ensures who[j] in run[j + 1].procs
    ensures var q := run[j + 1].procs[who[j]];
            && (q.pc.Scan? || q.pc.Fetch? || q.pc == Unlock(run[j].procs[who[j]].pc.c, Found))
            && (q.pc.Unlock? ==> Str(q.pin) == Str(run[i].procs[who[i]].pin))
  {
    hide Act, SemOk, CanAct, InBounds, Initial, VaultOk, Str, ViewOk;
    RunInv(run, who, what, i);
    SaveFillsVault(ViewOf(run[i], who[i]), what[i], id);
    VaultKept(run, who, what, i + 1, j, id);
    RunInv(run, who, what, j);
    FirstRead(run[j], who[j], what[j], id);
  }

  lemma SaveFillsVault(m: View, a: Choice, id: nat)
    requires CanAct(m, a) && InBounds(m) && id < MAX_SESSIONS && m.q.pc == Store(Call(Prompt, id, Save), SIZE)
    ensures |Act(m, a).vault| == MAX_SESSIONS && Act(m, a).vault[id] == Str(m.q.pin)
  {
    hide Str;
  }

  /** A first read, at any of its steps, when the vault has a PIN for the slot. */
  lemma FirstRead(w: World, p: int, a: Choice, id: nat)
    requires Inv(w) && Enabled(w, p, a) && id < MAX_SESSIONS
    requires Touches(w.procs[p].pc) && w.procs[p].pc.c.id == id && w.procs[p].pc.c.mode.First?
    requires |w.vault| == MAX_SESSIONS && w.vault[id] != []
    ensures var q := Step(w, p, a).procs[p];
            && (q.pc.Scan? || q.pc.Fetch? || q.pc == Unlock(w.procs[p].pc.c, Found))
            && (q.pc.Unlock? ==> Str(q.pin) == w.vault[id])
  {
    hide SemOk, CanAct;
    assert ProcOk(w, p);
    HolderSees(w, p, id);
    SelfStep(w, p, a);
    Untouched(ViewOf(w, p), a);
  }

  // ---- Calls ----

  /** At some moment of the stretch the slot was empty. */
  ghost predicate Emptied(run: seq<World>, i: nat, k: nat, id: nat) {
    exists t :: i < t <= k && t < |run| && id < |run[t].vault| && run[t].vault[id] == []
  }

  /** At some moment of the stretch the slot held this PIN. */
  ghost predicate Contained(run: seq<World>, i: nat, k: nat, id: nat, s: seq<int>) {
    exists t :: i < t <= k && t < |run| && id < |run[t].vault| && run[t].vault[id] == s
  }

  /** The user typed the text at the process's prompt. */
  ghost predicate Typed(who: seq<int>, what: seq<Choice>, p: int, i: nat, k: nat, text: seq<int>) {
    exists t :: i < t < k && t < |who| && t < |what| && who[t] == p && what[t] == Type(text)
  }

  /** The system refused the process something, or the prompt failed. */
  ghost predicate Refused(who: seq<int>, what: seq<Choice>, p: int, i: nat, k: nat) {
    exists t :: i < t < k && t < |who| && t < |what| && who[t] == p && what[t] == Fail
  }

  ghost predicate Returned(run: seq<World>, who: seq<int>, what: seq<Choice>, p: int, i: nat, k: nat, c: Call,
      reply: Reply)
    requires i < |run| && k < |run| && p in run[i].procs && p in run[k].procs
  {
    var was, pin := Str(run[i].procs[p].pin), Str(run[k].procs[p].pin);
    match reply
    case Found => c.mode.First? && pin != [] && Contained(run, i, k, c.id, pin)
    case Entered =>
      && c.entry.Prompt? && !c.mode.Save? && Emptied(run, i, k, c.id)
      && exists text :: Typed(who, what, p, i, k, text) && pin == if |text| <= 255 then text else text[..255]
    case Stored => c.mode.Save? && pin == [] && (c.entry.Prompt? ==> Contained(run, i, k, c.id, was))
    case Null =>
      && (c.entry.Prompt? ==> pin == was)
      && (Refused(who, what, p, i, k) || (c.entry.Check? && Emptied(run, i, k, c.id)))
  }

  /** What is known while the process is inside the call that it began at step i. */
  ghost predicate Under(run: seq<World>, who: seq<int>, what: seq<Choice>, p: int, i: nat, k: nat, c: Call)
    requires i < |run| && k < |run| && p in run[i].procs && p in run[k].procs
  {
    var was, q := run[i].procs[p].pin, run[k].procs[p];
    match q.pc
    case Idle(reply) => Returned(run, who, what, p, i, k, c, reply)
    case Unlock(d, reply) => d == c && Returned(run, who, what, p, i, k, c, reply)
    case Scan(d, _) => d == c
    case Fetch(d, _, _) => d == c
    case Release(d) => d == c && c.entry.Prompt? && q.pin == was && !c.mode.Save? && Emptied(run, i, k, c.id)
    case Ask(d) => d == c && c.entry.Prompt? && q.pin == was && !c.mode.Save? && Emptied(run, i, k, c.id)
    case Relock(d, text) =>
      && d == c && c.entry.Prompt? && !c.mode.Save? && Emptied(run, i, k, c.id) && Typed(who, what, p, i, k, text)
      && forall j :: 0 <= j < |text| ==> text[j] != 0
    case _ => q.pc.c == c && (c.entry.Prompt? ==> q.pin == was)
  }

  lemma Longer(run: seq<World>, who: seq<int>, what: seq<Choice>, p: int, i: nat, k: nat, c: Call)
    requires k < |run|
    ensures Emptied(run, i, k, c.id) ==> Emptied(run, i, k + 1, c.id)
    ensures forall s :: Contained(run, i, k, c.id, s) ==> Contained(run, i, k + 1, c.id, s)
    ensures forall text :: Typed(who, what, p, i, k, text) ==> Typed(who, what, p, i, k + 1, text)
    ensures Refused(who, what, p, i, k) ==> Refused(who, what, p, i, k + 1)
  {
  }

  /** The steps of other processes change nothing of this. */
  lemma UnderOthers(run: seq<World>, who: seq<int>, what: seq<Choice>, p: int, i: nat, k: nat, c: Call)
    requires i < k && k + 1 < |run| && p in run[i].procs && p in run[k].procs && p in run[k + 1].procs
    requires run[k + 1].procs[p] == run[k].procs[p] && Under(run, who, what, p, i, k, c)
    ensures Under(run, who, what, p, i, k + 1, c)
  {
    hide Emptied, Contained, Typed, Refused, Str;
    Longer(run, who, what, p, i, k, c);
    var pc := run[k].procs[p].pc;
    if pc.Idle? || pc.Unlock? {
      ReplyStays(run, who, what, p, i, k, c, pc.reply);
    }
  }

  /** The own steps that do not touch the slot. */
  lemma UnderOutside(run: seq<World>, who: seq<int>, what: seq<Choice>, p: int, i: nat, k: nat, c: Call)
    requires i < k && k + 1 < |run| && k < |who| && k < |what| && who[k] == p
    requires p in run[i].procs && p in run[k].procs && p in run[k + 1].procs
    requires Enabled(run[k], p, what[k]) && run[k + 1] == Step(run[k], p, what[k])
    requires !run[k].procs[p].pc.Idle? && !Touches(run[k].procs[p].pc) && Under(run, who, what, p, i, k, c)
    ensures Under(run, who, what, p, i, k + 1, c)
  {
    hide Str, Padded, Emptied, Contained, Typed, MemoryOk;
    var q := run[k].procs[p];
    Longer(run, who, what, p, i, k, c);
    if what[k].Fail? {
      assert Refused(who, what, p, i, k + 1);
    } else if q.pc.Ask? {
      TypedNow(who, what, p, i, k);
    } else if q.pc.Relock? {
      StrPadded(q.pc.text);
    } else if q.pc.Unlock? {
      ReplyStays(run, who, what, p, i, k, c, q.pc.reply);
    }
  }

  lemma TypedNow(who: seq<int>, what: seq<Choice>, p: int, i: nat, k: nat)
    requires i < k < |who| && k < |what| && who[k] == p && what[k].Type?
    ensures Typed(who, what, p, i, k + 1, what[k].text)
  {
  }

  lemma ReplyStays(run: seq<World>, who: seq<int>, what: seq<Choice>, p: int, i: nat, k: nat, c: Call,
      reply: Reply)
    requires i < k && k + 1 < |run| && p in run[i].procs && p in run[k].procs && p in run[k + 1].procs
    requires run[k + 1].procs[p].pin == run[k].procs[p].pin && Returned(run, who, what, p, i, k, c, reply)
    ensures Returned(run, who, what, p, i, k + 1, c, reply)
  {
    hide Emptied, Contained, Typed, Refused, Str;
    Longer(run, who, what, p, i, k, c);
    if reply.Entered? {
      var pin := Str(run[k].procs[p].pin);
      var text :| Typed(who, what, p, i, k, text) && pin == if |text| <= 255 then text else text[..255];
      assert Typed(who, what, p, i, k + 1, text);
    }
  }

  /** The own steps on the slot. */
  lemma UnderInside(run: seq<World>, who: seq<int>, what: seq<Choice>, p: int, i: nat, k: nat, c: Call)
    requires i < k && k + 1 < |run| && k < |what| && p in run[i].procs && p in run[k].procs && p in run[k + 1].procs
    requires Inv(run[k]) && Inv(run[k + 1])
    requires Enabled(run[k], p, what[k]) && run[k + 1] == Step(run[k], p, what[k])
    requires Touches(run[k].procs[p].pc) && Under(run, who, what, p, i, k, c)
    ensures Under(run, who, what, p, i, k + 1, c)
  {
    hide Str, Padded, SemOk, VaultOk;
    var q := run[k].procs[p];
    assert ProcOk(run[k], p) && ProcOk(run[k + 1], p);
    match q.pc
    case Start(_) =>
      HolderSees(run[k], p, c.id);
      if run[k].slots[c.id][0] == 0 {
        StrIs(run[k].slots[c.id], 0);
        assert run[k].vault[c.id] == [];
        assert Emptied(run, i, k + 1, c.id);
      }
    case Scan(_, _) =>
    case Fetch(_, n, j) =>
      assert j == n ==> run[k + 1].vault[c.id] == Str(run[k + 1].procs[p].pin);
    case Clear(_, j) =>
      assert j == SIZE ==> run[k + 1].vault[c.id] == [];
    case Store(_, j) =>
      if j == SIZE {
        StrIs(Zeros(), 0);
        assert run[k + 1].vault[c.id] == Str(run[i].procs[p].pin);
      }
  }

  /** The process begins a call at step i, and by step k has not come back from it before. */
  ghost predicate Within(run: seq<World>, who: seq<int>, what: seq<Choice>, i: nat, k: nat, c: Call, named: bool) {
    && |who| == |what| && i < |who| && i < k < |run| && who[i] in run[i].procs
    && run[i].procs[who[i]].pc.Idle? && what[i] == Begin(c, named)
    && forall t :: i < t < k ==> who[i] in run[t].procs && !run[t].procs[who[i]].pc.Idle?
  }

  lemma {:induction false} WithinUnder(run: seq<World>, who: seq<int>, what: seq<Choice>, i: nat, k: nat, c: Call)
    requires IsRun(run, who, what) && Within(run, who, what, i, k, c, true)
    requires c.id < 100 && !(c.entry.Check? && c.mode.Save?)
    ensures who[i] in run[k].procs && Under(run, who, what, who[i], i, k, c)
    decreases k
  {
    hide Inv, Under, Act, CanAct, InBounds, Initial;
    var p := who[i];
    RunInv(run, who, what, k - 1);
    RunInv(run, who, what, k);
    if k == i + 1 {
      UnderFirst(run, who, what, i, c);
    } else {
      WithinUnder(run, who, what, i, k - 1, c);
      if who[k - 1] != p {
        UnderOthers(run, who, what, p, i, k - 1, c);
      } else if Touches(run[k - 1].procs[p].pc) {
        UnderInside(run, who, what, p, i, k - 1, c);
      } else {
        UnderOutside(run, who, what, p, i, k - 1, c);
      }
    }
  }

  lemma UnderFirst(run: seq<World>, who: seq<int>, what: seq<Choice>, i: nat, c: Call)
    requires i < |who| && i < |what| && i + 1 < |run|
    requires Enabled(run[i], who[i], what[i]) && run[i + 1] == Step(run[i], who[i], what[i])
    requires run[i].procs[who[i]].pc.Idle? && what[i] == Begin(c, true)
    requires c.id < 100 && !(c.entry.Check? && c.mode.Save?)
    ensures Under(run, who, what, who[i], i, i + 1, c)
  {
    hide Str, Padded;
  }

  /** In every run, what a call returns, whatever the other processes do meanwhile. A call with a bad slot or without
      a repository is refused at once. Else: a PIN that was found is one that the slot held during the call, and
      only a first call finds one. A PIN that was entered is what the user typed, cut to 255 characters, and the
      slot was empty at some moment of the call: a first call only asks when it finds nothing, and a retry removes
      the bad PIN before it asks. A save puts the process's PIN in the slot and wipes the process's own copy. And
      nothing is returned only if the system refused or the prompt failed, or for a check if the slot was empty, or
      emptied by it. */
  lemma CallOutcome(run: seq<World>, who: seq<int>, what: seq<Choice>, i: nat, k: nat, c: Call, named: bool)
    requires IsRun(run, who, what) && Within(run, who, what, i, k, c, named)
    requires who[i] in run[k].procs && run[k].procs[who[i]].pc.Idle?
    ensures c.id >= 100 || !named ==>
      k == i + 1 && run[k] == run[i].(procs := run[i].procs[who[i] := run[i].procs[who[i]].(pc := Idle(Null))])
    ensures c.id < 100 && named ==> Returned(run, who, what, who[i], i, k, c, run[k].procs[who[i]].pc.reply)
  {
    hide Inv, Returned, Act, CanAct, InBounds, Initial;
    RunInv(run, who, what, i);
    if c.id < 100 && named && !(c.entry.Check? && c.mode.Save?) {
      WithinUnder(run, who, what, i, k, c);
      assert Under(run, who, what, who[i], i, k, c);
    } else {
      AtOnce(run[i], who[i], c, named);
      assert run[i + 1].procs[who[i]].pc.Idle?;
      assert k == i + 1;
      if c.id < 100 && named {
        SavedNothing(run, who, what, i, c);
      }
    }
  }

  lemma AtOnce(w: World, p: int, c: Call, named: bool)
    requires Enabled(w, p, Begin(c, named)) && w.procs[p].pc.Idle?
    ensures c.id >= 100 || !named ==>
      Step(w, p, Begin(c, named)) == w.(procs := w.procs[p := w.procs[p].(pc := Idle(Null))])
    ensures c.id < 100 && named && c.entry.Check? && c.mode.Save? ==>
      (var q := Step(w, p, Begin(c, named)).procs[p]; q.pc == Idle(Stored) && Str(q.pin) == [])
  {
    StrIs(Zeros(), 0);
  }

  lemma SavedNothing(run: seq<World>, who: seq<int>, what: seq<Choice>, i: nat, c: Call)
    requires i + 1 < |run| && i < |who| && who[i] in run[i].procs && who[i] in run[i + 1].procs
    requires c.entry.Check? && c.mode.Save? && run[i + 1].procs[who[i]].pc == Idle(Stored)
    requires Str(run[i + 1].procs[who[i]].pin) == []
    ensures Returned(run, who, what, who[i], i, i + 1, c, Stored)
  {
  }

  // ---- From the user to the next process ----

  /** The text waits to be copied, or is in the process's buffer when the call returns. */
  predicate Remembers(q: Proc, text: seq<int>) {
    || (q.pc.Relock? && q.pc.text == text)
    || (&& Str(q.pin) == (if |text| <= 255 then text else text[..255])
        && ((q.pc.Idle? || q.pc.Unlock?) && q.pc.reply == Entered))
  }

  lemma RemembersStep(m: View, a: Choice, text: seq<int>)
    requires CanAct(m, a) && InBounds(m) && Remembers(m.q, text) && !m.q.pc.Idle?
    requires forall i :: 0 <= i < |text| ==> text[i] != 0
    ensures Remembers(Act(m, a).q, text)
  {
    hide Str, Padded, MemoryOk;
    StrPadded(text);
  }

  /** In every run, from the moment the user has typed a text to the process's return: the process remembers it. */
  lemma {:induction false} RemembersText(run: seq<World>, who: seq<int>, what: seq<Choice>, i: nat, k: nat)
    requires IsRun(run, who, what) && i < k < |run| && who[i] in run[i].procs
    requires run[i].procs[who[i]].pc.Ask? && what[i].Type?
    requires forall t :: i < t < k ==> who[i] in run[t].procs && !run[t].procs[who[i]].pc.Idle?
    ensures who[i] in run[k].procs && Remembers(run[k].procs[who[i]], what[i].text)
    ensures forall j :: 0 <= j < |what[i].text| ==> what[i].text[j] != 0
    decreases k
  {
    hide Inv, Remembers, InBounds, Initial, Act, CanAct;
    var p := who[i];
    RunInv(run, who, what, i);
    AskedFor(run[i], p, what[i]);
    if i + 1 < k {
      RemembersText(run, who, what, i, k - 1);
      RunInv(run, who, what, k - 1);
      if who[k - 1] == p {
        RemembersStep(ViewOf(run[k - 1], p), what[k - 1], what[i].text);
      }
    }
  }

  lemma AskedFor(w: World, p: int, a: Choice)
    requires Enabled(w, p, a) && w.procs[p].pc.Ask? && a.Type?
    ensures Remembers(Step(w, p, a).procs[p], a.text)
    ensures forall j :: 0 <= j < |a.text| ==> a.text[j] != 0
  {
    hide Str, Padded;
  }

  /** In every run: the text that the user types at a prompt is what the call returns, cut to 255 characters. */
  lemma TypedPinIsReturned(run: seq<World>, who: seq<int>, what: seq<Choice>, i: nat, k: nat)
    requires IsRun(run, who, what) && i < k < |run| && who[i] in run[i].procs
    requires run[i].procs[who[i]].pc.Ask? && what[i].Type?
    requires forall t :: i < t < k ==> who[i] in run[t].procs && !run[t].procs[who[i]].pc.Idle?
    requires who[i] in run[k].procs && run[k].procs[who[i]].pc.Idle?
    ensures run[k].procs[who[i]].pc == Idle(Entered)
    ensures Str(run[k].procs[who[i]].pin) == if |what[i].text| <= 255 then what[i].text else what[i].text[..255]
  {
    hide IsRun, Str;
    RemembersText(run, who, what, i, k);
  }

  /** From the typing of a text to its save. */
  predicate Carries(q: Proc, text: seq<int>, save: Call) {
    || Remembers(q, text)
    || (&& Str(q.pin) == (if |text| <= 255 then text else text[..255])
        && (q.pc == Idle(Null) || q.pc == Unlock(save, Null) || q.pc == Open(save) || q.pc == Init(save)
            || q.pc == Stat(save) || q.pc == Lock(save) || q.pc == Attach(save) || q.pc == Start(save)
            || (q.pc.Store? && q.pc.c == save)))
  }

  /** The process carries the text through every step but the one that completes the save. */
  lemma CarriesStep(m: View, a: Choice, text: seq<int>, id: nat)
    requires CanAct(m, a) && InBounds(m) && Carries(m.q, text, Call(Prompt, id, Save))
    requires forall i :: 0 <= i < |text| ==> text[i] != 0
    requires m.q.pc.Idle? ==> a.c == Call(Prompt, id, Save)
    requires m.q.pc != Store(Call(Prompt, id, Save), SIZE)
    ensures Carries(Act(m, a).q, text, Call(Prompt, id, Save))
  {
    hide Str, Padded, MemoryOk;
    StrPadded(text);
  }

  lemma {:induction false} CarriedOn(run: seq<World>, who: seq<int>, what: seq<Choice>, i: nat, k: nat, id: nat)
    requires IsRun(run, who, what) && i < k < |run| && who[i] in run[i].procs
    requires run[i].procs[who[i]].pc.Ask? && what[i].Type?
    requires forall t :: i < t < k && who[t] == who[i] && what[t].Begin? ==> what[t].c == Call(Prompt, id, Save)
    requires forall t :: i < t < k && who[t] == who[i] ==>
      run[t].procs[who[t]].pc != Store(Call(Prompt, id, Save), SIZE)
    ensures who[i] in run[k].procs && Carries(run[k].procs[who[i]], what[i].text, Call(Prompt, id, Save))
    ensures forall j :: 0 <= j < |what[i].text| ==> what[i].text[j] != 0
    decreases k
  {
    hide Inv, Carries, InBounds, Initial, Act, CanAct;
    var p := who[i];
    RunInv(run, who, what, i);
    AskedFor(run[i], p, what[i]);
    CarriesRemembered(run[i + 1].procs[p], what[i].text, Call(Prompt, id, Save));
    if i + 1 < k {
      CarriedOn(run, who, what, i, k - 1, id);
      RunInv(run, who, what, k - 1);
      if who[k - 1] == p {
        BeginsIdle(ViewOf(run[k - 1], p), what[k - 1]);
        CarriesStep(ViewOf(run[k - 1], p), what[k - 1], what[i].text, id);
      }
    }
  }

  lemma CarriesRemembered(q: Proc, text: seq<int>, save: Call)
    requires Remembers(q, text)
    ensures Carries(q, text, save)
  {
  }

  lemma BeginsIdle(m: View, a: Choice)
    requires CanAct(m, a)
    ensures m.q.pc.Idle? ==> a.Begin?
  {
  }

  /** In every run: the text that a user types at the prompt of a process, and that this process then saves in a slot,
      is what later first reads of the slot find and return, whoever makes them, until the next save or removal in
      that slot is complete. Between typing and saving the process may try the save any number of times. */
  lemma TypedPinIsRead(run: seq<World>, who: seq<int>, what: seq<Choice>, i: nat, s: nat, j: nat, id: nat)
    requires IsRun(run, who, what) && i < s < j < |who| && id < 100 && who[i] in run[i].procs
    requires run[i].procs[who[i]].pc.Ask? && what[i].Type? && what[i].text != []
    requires forall t :: i < t < s && who[t] == who[i] && what[t].Begin? ==> what[t].c == Call(Prompt, id, Save)
    requires forall t :: i < t < s && who[t] == who[i] ==>
      run[t].procs[who[t]].pc != Store(Call(Prompt, id, Save), SIZE)
    requires who[s] == who[i] && run[s].procs[who[s]].pc == Store(Call(Prompt, id, Save), SIZE)
    requires forall k :: s < k < j ==> !Rewrites(run[k].procs[who[k]].pc, id)
    requires Touches(run[j].procs[who[j]].pc) && run[j].procs[who[j]].pc.c.id == id
    requires run[j].procs[who[j]].pc.c.mode.First?
    ensures who[j] in run[j + 1].procs
    ensures var q := run[j + 1].procs[who[j]];
            && (q.pc.Scan? || q.pc.Fetch? || q.pc == Unlock(run[j].procs[who[j]].pc.c, Found))
            && (q.pc.Unlock? ==> Str(q.pin) == if |what[i].text| <= 255 then what[i].text else what[i].text[..255])
  {
    hide Inv, InBounds, Initial, Act, CanAct, Str;
    CarriedOn(run, who, what, i, s, id);
    SavedPinIsRead(run, who, what, s, j, id);
  }
}
