/** The sink gate's bookkeeping (gate.py): what it said, which faults last, and how
    often it may say so again. Each lock section is one step; pipelines decide on
    threads of their own, so other pipelines' steps come between. */
module Gate {
  import opened Cursors

  const SAID_CAP: nat := 1024
  const REMIND: int := 21600

  /** A pipeline's origin and name, as a number; so are a client and an exception's type. */
  type PipeKey = nat

  /** What a line may be about. `Exc`: an exception of one type inside a pipeline's decision. */
  datatype Key =
    | Exc(pipe: PipeKey, kind: nat)
    | ClientFault(client: nat)
    | SiteFault
    | NoSinks
    | Ungoverned(who: PipeKey)
    | NoClient(who: PipeKey)

  datatype Say = First | Remind | Silent

  /** The fault tables; `errors`: the times of each exception key's ERROR lines. */
  datatype Faults = Faults(said: set<Key>, faultAt: map<Key, int>, excKeys: map<PipeKey, set<Key>>, cleared: set<Key>,
                           errors: map<Key, seq<int>>)

  /** `held`, `recovered`: how many ERROR and recovery lines each pipeline had. */
  datatype Counts = Counts(owed: set<PipeKey>, held: map<PipeKey, nat>, recovered: map<PipeKey, nat>)

  function ErrorsOf(errors: map<Key, seq<int>>, f: Key): seq<int> {
    if f in errors then errors[f] else []
  }

  function Number(m: map<PipeKey, nat>, k: PipeKey): nat {
    if k in m then m[k] else 0
  }

  function KeysOf(excKeys: map<PipeKey, set<Key>>, k: PipeKey): set<Key> {
    if k in excKeys then excKeys[k] else {}
  }

  // ---- the lock sections -------------------------------------------------------------

  /** The clock of a key, and the ERROR line of an exception key. */
  function Clocked(f: Faults, key: Key, now: int): Faults {
    f.(faultAt := f.faultAt[key := now],
       errors := if key.Exc? then f.errors[key := ErrorsOf(f.errors, key) + [now]] else f.errors)
  }

  function OneHeld(c: Counts, key: Key): Counts {
    if key.Exc? then c.(held := c.held[key.pipe := Number(c.held, key.pipe) + 1]) else c
  }

  /** `_first`. */
  function FirstSight(said: set<Key>, key: Key): (set<Key>, bool) {
    if key in said || |said| >= SAID_CAP then (said, false) else (said + {key}, true)
  }

  /** The first section of `_fault`; none when the key is not lasting. */
  function Lasting(f: Faults, key: Key, now: int): (Faults, Option<Say>) {
    if key !in f.faultAt then (f, None)
    else if now - f.faultAt[key] < REMIND then (f, Some(Silent))
    else (Clocked(f, key, now), Some(Remind))
  }

  /** `_clear`. */
  function ClearFault(f: Faults, key: Key): Faults {
    if key in f.faultAt then f.(faultAt := f.faultAt - {key}, said := f.said - {key}) else f
  }

  /** `_recur`; none when the key was not cleared. */
  function Recur(f: Faults, key: Key, now: int): (Faults, Option<Say>) {
    if key !in f.cleared then (f, None)
    else
      var f' := f.(cleared := f.cleared - {key});
      if key in f.faultAt && now - f.faultAt[key] < REMIND then (f', Some(Silent))
      else (Clocked(f', key, now), Some(First))
  }

  /** The section of `decide` after an exception. */
  function NoteException(f: Faults, k: PipeKey, key: Key): Faults {
    if key in f.faultAt then f.(excKeys := f.excKeys[k := KeysOf(f.excKeys, k) + {key}]) else f
  }

  function Owe(c: Counts, k: PipeKey, say: Say): Counts {
    if say != Silent && |c.owed| < SAID_CAP then c.(owed := c.owed + {k}) else c
  }

  /** `_clear_exceptions`, */
  function ClearExceptions(f: Faults, k: PipeKey): Faults {
    f.(excKeys := f.excKeys - {k}, cleared := f.cleared + KeysOf(f.excKeys, k))
  }

  /** ... and the recovery line it may owe. */
  function Recover(c: Counts, k: PipeKey): Counts {
    if k in c.owed then c.(owed := c.owed - {k}, recovered := c.recovered[k := Number(c.recovered, k) + 1]) else c
  }

  /** The exception keys `forget` drops. */
  function Dropped(f: Faults, keep: set<PipeKey>): set<Key> {
    (set k, x | k in f.excKeys && k !in keep && x in f.excKeys[k] :: x)
    + set x | x in f.cleared && x.Exc? && x.pipe !in keep
  }

  /** `forget`, between pumps. */
  function Forget(f: Faults, keep: set<PipeKey>): Faults {
    var gone := Dropped(f, keep);
    Faults(f.said - gone, f.faultAt - gone, (map k | k in f.excKeys && k in keep :: f.excKeys[k]),
           f.cleared - (set x | x in f.cleared && x.Exc? && x.pipe !in keep), f.errors)
  }

  // ---- what every section keeps ---------------------------------------------------------

  /** One exception key of one pipeline: listed or cleared, never both, always lasting. */
  ghost predicate Listed(f: Faults, x: Key, k: PipeKey) {
    x in KeysOf(f.excKeys, k) ==> x.Exc? && x.pipe == k && x in f.faultAt && x !in f.cleared
  }

  ghost predicate Placed(f: Faults, x: Key) {
    (x in f.cleared ==> x.Exc? && x in f.faultAt) && (x in f.faultAt ==> x in f.said)
  }

  ghost predicate Tables(f: Faults) {
    (forall x: Key, k: PipeKey :: Listed(f, x, k)) && (forall x: Key :: Placed(f, x)) && |f.said| <= SAID_CAP
  }

  predicate Spaced(times: seq<int>) {
    forall i :: 0 < i < |times| ==> times[i] - times[i - 1] >= REMIND
  }

  /** An exception key's clock is its last line; no clock, no line. */
  ghost predicate ClockAt(f: Faults, x: Key) {
    var times := ErrorsOf(f.errors, x);
    Spaced(times) && if x in f.faultAt then times != [] && times[|times| - 1] == f.faultAt[x] else times == []
  }

  ghost predicate Clocks(f: Faults, forgotten: set<PipeKey>) {
    forall x: Key :: x.Exc? && x.pipe !in forgotten ==> ClockAt(f, x)
  }

  /** A pipeline never had more recovery lines than ERROR lines. */
  ghost predicate BalanceAt(c: Counts, k: PipeKey) {
    Number(c.recovered, k) + (if k in c.owed then 1 else 0) <= Number(c.held, k)
  }

  ghost predicate Balance(c: Counts) {
    (forall k: PipeKey :: BalanceAt(c, k)) && |c.owed| <= SAID_CAP
  }

  /** What no other pipeline's step touches: of an exception key, */
  ghost predicate KeySame(f: Faults, f': Faults, x: Key) {
    && (x in f'.cleared <==> x in f.cleared) && (x in f'.said <==> x in f.said)
    && (x in f'.faultAt <==> x in f.faultAt) && (x in f.faultAt ==> f'.faultAt[x] == f.faultAt[x])
  }

  // ---- one section at a time ---------------------------------------------------------------

  lemma ClockedTables(f: Faults, key: Key, now: int)
    requires Tables(f) && key in f.said
    ensures Tables(Clocked(f, key, now))
  {
    var f' := Clocked(f, key, now);
    forall x: Key, k: PipeKey ensures Listed(f', x, k) { assert Listed(f, x, k); }
    forall x: Key ensures Placed(f', x) { assert Placed(f, x); }
  }

  lemma ClockedClocks(f: Faults, key: Key, now: int, forgotten: set<PipeKey>)
    requires Clocks(f, forgotten) && (key in f.faultAt ==> now - f.faultAt[key] >= REMIND)
    ensures Clocks(Clocked(f, key, now), forgotten)
  {
    var f' := Clocked(f, key, now);
    forall x: Key | x.Exc? && x.pipe !in forgotten ensures ClockAt(f', x) { assert ClockAt(f, x); }
  }

  lemma HeldBalances(c: Counts, key: Key)
    requires Balance(c)
    ensures Balance(OneHeld(c, key))
    ensures key.Exc? ==> Number(c.recovered, key.pipe) + 1 <= Number(OneHeld(c, key).held, key.pipe)
  {
    var c' := OneHeld(c, key);
    forall k: PipeKey ensures BalanceAt(c', k) { assert BalanceAt(c, k); }
    if key.Exc? { assert BalanceAt(c, key.pipe); }
  }

  lemma FirstSightTables(f: Faults, key: Key)
    requires Tables(f)
    ensures Tables(f.(said := FirstSight(f.said, key).0))
  {
    var f' := f.(said := FirstSight(f.said, key).0);
    forall x: Key, k: PipeKey ensures Listed(f', x, k) { assert Listed(f, x, k); }
    forall x: Key ensures Placed(f', x) { assert Placed(f, x); }
  }

  /** Clearing a file's fault: no pipeline's own. */
  lemma ClearFaultKeeps(f: Faults, key: Key, forgotten: set<PipeKey>)
    requires Tables(f) && Clocks(f, forgotten) && !key.Exc?
    ensures Tables(ClearFault(f, key)) && Clocks(ClearFault(f, key), forgotten)
    ensures forall x: Key :: x.Exc? ==> KeySame(f, ClearFault(f, key), x)
  {
    var f' := ClearFault(f, key);
    forall x: Key, k: PipeKey ensures Listed(f', x, k) { assert Listed(f, x, k); }
    forall x: Key ensures Placed(f', x) { assert Placed(f, x); }
    forall x: Key | x.Exc? && x.pipe !in forgotten ensures ClockAt(f', x) { assert ClockAt(f, x); }
    Fewer(f.said, f.said - {key});
  }

  lemma Fewer<X>(a: set<X>, b: set<X>)
    requires b <= a
    ensures |b| <= |a|
  {
    assert a == b + (a - b);
  }

  lemma UnclearedTables(f: Faults, key: Key)
    requires Tables(f)
    ensures Tables(f.(cleared := f.cleared - {key}))
  {
    var f' := f.(cleared := f.cleared - {key});
    forall x: Key, k: PipeKey ensures Listed(f', x, k) { assert Listed(f, x, k); }
    forall x: Key ensures Placed(f', x) { assert Placed(f, x); }
  }

  lemma RecurKeeps(f: Faults, key: Key, now: int, forgotten: set<PipeKey>)
    requires Tables(f) && Clocks(f, forgotten)
    ensures Tables(Recur(f, key, now).0) && Clocks(Recur(f, key, now).0, forgotten) && key !in Recur(f, key, now).0.cleared
    ensures forall x: Key :: x != key ==> KeySame(f, Recur(f, key, now).0, x)
  {
    var f1 := f.(cleared := f.cleared - {key});
    assert Placed(f, key);
    UnclearedTables(f, key);
    SameClocks(f, f1, forgotten);
    if key in f.cleared && now - f.faultAt[key] >= REMIND {
      ClockedTables(f1, key, now);
      ClockedClocks(f1, key, now, forgotten);
    }
    hide Tables, Clocks;
  }

  lemma SameClocks(f: Faults, f': Faults, forgotten: set<PipeKey>)
    requires Clocks(f, forgotten) && f'.faultAt == f.faultAt && f'.errors == f.errors
    ensures Clocks(f', forgotten)
  {
    forall x: Key | x.Exc? && x.pipe !in forgotten ensures ClockAt(f', x) { assert ClockAt(f, x); }
  }

  lemma NoteExceptionKeeps(f: Faults, k: PipeKey, key: Key)
    requires Tables(f) && key.Exc? && key.pipe == k && key !in f.cleared
    ensures Tables(NoteException(f, k, key))
  {
    var f' := NoteException(f, k, key);
    forall x: Key, j: PipeKey ensures Listed(f', x, j) { assert Listed(f, x, j); }
    forall x: Key ensures Placed(f', x) { assert Placed(f, x); }
  }

  lemma OweBalances(c: Counts, k: PipeKey, say: Say)
    requires Balance(c) && (say != Silent ==> Number(c.recovered, k) + 1 <= Number(c.held, k))
    ensures Balance(Owe(c, k, say))
  {
    var c' := Owe(c, k, say);
    forall j: PipeKey ensures BalanceAt(c', j) { assert BalanceAt(c, j); }
  }

  lemma ClearExceptionsKeeps(f: Faults, k: PipeKey)
    requires Tables(f)
    ensures Tables(ClearExceptions(f, k))
    ensures forall x: Key :: !(x.Exc? && x.pipe == k) ==> KeySame(f, ClearExceptions(f, k), x)
  {
    var f' := ClearExceptions(f, k);
    forall x: Key, j: PipeKey ensures Listed(f', x, j) { assert Listed(f, x, j) && Listed(f, x, k); }
    forall x: Key ensures Placed(f', x) { assert Placed(f, x) && Listed(f, x, k); }
    forall x: Key | !(x.Exc? && x.pipe == k) ensures KeySame(f, f', x) { assert Listed(f, x, k); }
  }

  lemma RecoverBalances(c: Counts, k: PipeKey)
    requires Balance(c)
    ensures Balance(Recover(c, k)) && Recover(c, k).held == c.held
    ensures forall j :: j != k ==> Number(Recover(c, k).recovered, j) == Number(c.recovered, j)
  {
    var c' := Recover(c, k);
    forall j: PipeKey ensures BalanceAt(c', j) { assert BalanceAt(c, j); }
    Fewer(c.owed, c.owed - {k});
  }

  lemma DroppedIff(f: Faults, keep: set<PipeKey>, x: Key)
    requires Tables(f)
    ensures x in Dropped(f, keep) <==>
            x.Exc? && x.pipe !in keep && (x in KeysOf(f.excKeys, x.pipe) || x in f.cleared)
  {
    forall k | k in f.excKeys && x in f.excKeys[k] ensures x.Exc? && x.pipe == k { assert Listed(f, x, k); }
  }

  /** `forget` drops whole pipelines: afterwards a dropped one has no exception left. */
  lemma ForgetKeeps(f: Faults, keep: set<PipeKey>, forgotten: set<PipeKey>)
    requires Tables(f) && Clocks(f, forgotten)
    ensures Tables(Forget(f, keep))
    ensures Clocks(Forget(f, keep), forgotten + set x | x in Dropped(f, keep) && x.Exc? :: x.pipe)
    ensures forall x: Key :: x.Exc? && x.pipe in keep ==> KeySame(f, Forget(f, keep), x)
  {
    var f' := Forget(f, keep);
    forall x: Key, j: PipeKey ensures Listed(f', x, j) {
      DroppedIff(f, keep, x);
      assert Listed(f, x, j);
    }
    forall x: Key ensures Placed(f', x) {
      DroppedIff(f, keep, x);
      assert Placed(f, x);
    }
    var all := forgotten + set x | x in Dropped(f, keep) && x.Exc? :: x.pipe;
    forall x: Key | x.Exc? && x.pipe !in all ensures ClockAt(f', x) {
      DroppedIff(f, keep, x);
      assert ClockAt(f, x);
    }
    forall x: Key | x.Exc? && x.pipe in keep ensures KeySame(f, f', x) { DroppedIff(f, keep, x); }
    Fewer(f.said, f'.said);
  }

  /** Any two ERROR lines of one exception key lie at least six hours apart. */
  lemma {:induction false} LinesApart(times: seq<int>, i: nat, j: nat)
    requires Spaced(times) && i < j < |times|
    ensures times[j] - times[i] >= REMIND * (j - i)
    decreases j - i
  {
    if i + 1 < j { LinesApart(times, i, j - 1); }
    assert times[j] - times[j - 1] >= REMIND;
  }

  // ---- pipelines deciding at once --------------------------------------------------------------

  /** Where one pipeline's decision stands, between two lock sections. `Judging`: in
      `_fault`; `Seeking`: about to ask `_first`; `Seen`: about to set the clock. */
  datatype Pc = Idle | Raised(key: Key) | Judging(key: Key) | Seeking(key: Key) | Seen(key: Key) | Noting(key: Key, say: Say)

  /** Pipelines decide on threads of their own; `who` names the pipeline key each
      thread decides for. */
  type Thread = nat

  datatype State = State(f: Faults, c: Counts, forgotten: set<PipeKey>, pcs: map<Thread, Pc>)

  /** No two pipelines have one origin and name. */
  ghost predicate Distinct(who: Thread -> PipeKey) {
    forall t, u :: t != u ==> who(t) != who(u)
  }

  /** One lock section of a thread's decision, or the exception that leads to one. */
  datatype Step =
    | Raise(kind: nat)
    | Clean
    | Section(now: int)
    | FileFault(key: Key)
    | FileClear(key: Key)
    | OnceLine(key: Key)
    | ForgetAll(keep: set<PipeKey>)

  function PcOf(s: State, t: Thread): Pc {
    if t in s.pcs then s.pcs[t] else Idle
  }

  /** What a pipeline does once `_fault` has answered. */
  function Answered(key: Key, say: Say): Pc {
    if key.Exc? then Noting(key, say) else Idle
  }

  /** The next section of a decision under way. */
  function NextSection(f: Faults, c: Counts, k: PipeKey, pc: Pc, now: int): (Faults, Counts, Pc) {
    match pc
    case Idle => (f, c, Idle)
    case Raised(key) =>
      var (f', say) := Recur(f, key, now);
      if say.None? then (f', c, Judging(key)) else (f', if say == Some(First) then OneHeld(c, key) else c, Noting(key, say.value))
    case Judging(key) =>
      var (f', say) := Lasting(f, key, now);
      if say.None? then (f', c, Seeking(key))
      else (f', if say == Some(Remind) then OneHeld(c, key) else c, Answered(key, say.value))
    case Seeking(key) =>
      var (said, first) := FirstSight(f.said, key);
      (f.(said := said), c, if first then Seen(key) else Answered(key, Silent))
    case Seen(key) => (Clocked(f, key, now), OneHeld(c, key), Answered(key, First))
    case Noting(key, say) => (NoteException(f, k, key), Owe(c, k, say), Idle)
  }

  predicate Ready(s: State, t: Thread, step: Step) {
    match step
    case Section(_) => PcOf(s, t) != Idle
    case ForgetAll(_) => forall u :: u in s.pcs ==> s.pcs[u] == Idle
    case Raise(_) => PcOf(s, t) == Idle
    case Clean => PcOf(s, t) == Idle
    case _ => PcOf(s, t) == Idle && !step.key.Exc?
  }

  function After(who: Thread -> PipeKey, s: State, t: Thread, step: Step): State {
    match step
    case Raise(kind) => s.(pcs := s.pcs[t := Raised(Exc(who(t), kind))])
    case Clean => s.(f := ClearExceptions(s.f, who(t)), c := Recover(s.c, who(t)))
    case Section(now) => var (f, c, pc) := NextSection(s.f, s.c, who(t), PcOf(s, t), now); s.(f := f, c := c, pcs := s.pcs[t := pc])
    case FileFault(key) => s.(pcs := s.pcs[t := Judging(key)])
    case FileClear(key) => s.(f := ClearFault(s.f, key))
    case OnceLine(key) => s.(f := s.f.(said := FirstSight(s.f.said, key).0))
    case ForgetAll(keep) =>
      s.(f := Forget(s.f, keep), c := s.c.(owed := s.c.owed * keep),
         forgotten := s.forgotten + set x | x in Dropped(s.f, keep) && x.Exc? :: x.pipe)
  }

  /** `s` becomes `s'` by one step of thread `t`. */
  predicate Takes(who: Thread -> PipeKey, s: State, s': State, t: Thread, step: Step) {
    Ready(s, t, step) && s' == After(who, s, t, step)
  }

  /** What a decision under way relies on. */
  ghost predicate PcOk(f: Faults, c: Counts, k: PipeKey, pc: Pc) {
    match pc
    case Idle => true
    case Raised(key) => key.Exc? && key.pipe == k
    case Judging(key) => key.Exc? ==> key.pipe == k && key !in f.cleared
    case Seeking(key) => key.Exc? ==> key.pipe == k && key !in f.cleared
    case Seen(key) => (key.Exc? ==> key.pipe == k && key !in f.cleared) && key in f.said && key !in f.faultAt
    case Noting(key, say) =>
      && key.Exc? && key.pipe == k && key !in f.cleared
      && (say != Silent ==> Number(c.recovered, k) + 1 <= Number(c.held, k))
  }

  /** No two decisions are about to set one clock. */
  ghost predicate OneStamper(s: State, t: Thread, u: Thread) {
    t != u && PcOf(s, t).Seen? && PcOf(s, u).Seen? ==> PcOf(s, t).key != PcOf(s, u).key
  }

  ghost predicate Inv(who: Thread -> PipeKey, s: State) {
    && Tables(s.f) && Clocks(s.f, s.forgotten) && Balance(s.c)
    && (forall t: Thread :: PcOk(s.f, s.c, who(t), PcOf(s, t)))
    && forall t: Thread, u: Thread :: OneStamper(s, t, u)
  }

  /** What a step of another pipeline leaves pipeline `k`'s decision standing on. */
  lemma OthersKeep(f: Faults, f': Faults, c: Counts, c': Counts, k: PipeKey, pc: Pc)
    requires PcOk(f, c, k, pc)
    requires pc.Seen? || (!pc.Idle? && pc.key.Exc?) ==> KeySame(f, f', pc.key)
    requires Number(c'.recovered, k) == Number(c.recovered, k) && Number(c'.held, k) == Number(c.held, k)
    ensures PcOk(f', c', k, pc)
  {
  }

  /** What one section of pipeline `k`'s decision promises. */
  ghost predicate SectionKept(f: Faults, c: Counts, forgotten: set<PipeKey>, k: PipeKey, pc: Pc, now: int) {
    var (f', c', pc') := NextSection(f, c, k, pc, now);
    Tables(f') && Clocks(f', forgotten) && Balance(c') && PcOk(f', c', k, pc')
  }

  lemma RaisedKeeps(f: Faults, c: Counts, forgotten: set<PipeKey>, k: PipeKey, key: Key, now: int)
    requires Tables(f) && Clocks(f, forgotten) && Balance(c) && PcOk(f, c, k, Raised(key))
    ensures SectionKept(f, c, forgotten, k, Raised(key), now)
  {
    hide Tables, Clocks, Balance, Clocked;
    RecurKeeps(f, key, now, forgotten);
    HeldBalances(c, key);
  }

  lemma JudgingKeeps(f: Faults, c: Counts, forgotten: set<PipeKey>, k: PipeKey, key: Key, now: int)
    requires Tables(f) && Clocks(f, forgotten) && Balance(c) && PcOk(f, c, k, Judging(key))
    ensures SectionKept(f, c, forgotten, k, Judging(key), now)
  {
    hide Tables, Clocks, Balance, Clocked;
    LastingKeeps(f, key, now, forgotten);
    HeldBalances(c, key);
  }

  lemma SeekingKeeps(f: Faults, c: Counts, forgotten: set<PipeKey>, k: PipeKey, key: Key, now: int)
    requires Tables(f) && Clocks(f, forgotten) && Balance(c) && PcOk(f, c, k, Seeking(key))
    ensures SectionKept(f, c, forgotten, k, Seeking(key), now)
  {
    FirstClockFree(f, key);
    hide Tables, Clocks, Balance;
    FirstSightTables(f, key);
    SameClocks(f, f.(said := FirstSight(f.said, key).0), forgotten);
  }

  lemma FirstClockFree(f: Faults, key: Key)
    requires Tables(f)
    ensures FirstSight(f.said, key).1 ==> key !in f.faultAt
  {
    assert Placed(f, key);
  }

  lemma SeenKeeps(f: Faults, c: Counts, forgotten: set<PipeKey>, k: PipeKey, key: Key, now: int)
    requires Tables(f) && Clocks(f, forgotten) && Balance(c) && PcOk(f, c, k, Seen(key))
    ensures SectionKept(f, c, forgotten, k, Seen(key), now)
  {
    hide Tables, Clocks, Balance;
    ClockedTables(f, key, now);
    ClockedClocks(f, key, now, forgotten);
    HeldBalances(c, key);
  }

  lemma NotingKeeps(f: Faults, c: Counts, forgotten: set<PipeKey>, k: PipeKey, key: Key, say: Say, now: int)
    requires Tables(f) && Clocks(f, forgotten) && Balance(c) && PcOk(f, c, k, Noting(key, say))
    ensures SectionKept(f, c, forgotten, k, Noting(key, say), now)
  {
    hide Tables, Clocks, Balance;
    NoteExceptionKeeps(f, k, key);
    SameClocks(f, NoteException(f, k, key), forgotten);
    OweBalances(c, k, say);
  }

  /** One section of pipeline `k`'s decision keeps the tables, the clocks, the
      balance, and what its own next section relies on. */
  lemma SectionKeeps(f: Faults, c: Counts, forgotten: set<PipeKey>, k: PipeKey, pc: Pc, now: int)
    requires Tables(f) && Clocks(f, forgotten) && Balance(c) && PcOk(f, c, k, pc)
    ensures SectionKept(f, c, forgotten, k, pc, now)
  {
    hide Tables, Clocks, Balance, PcOk;
    match pc
    case Idle =>
    case Raised(key) => RaisedKeeps(f, c, forgotten, k, key, now);
    case Judging(key) => JudgingKeeps(f, c, forgotten, k, key, now);
    case Seeking(key) => SeekingKeeps(f, c, forgotten, k, key, now);
    case Seen(key) => SeenKeeps(f, c, forgotten, k, key, now);
    case Noting(key, say) => NotingKeeps(f, c, forgotten, k, key, say, now);
  }

  lemma LastingKeeps(f: Faults, key: Key, now: int, forgotten: set<PipeKey>)
    requires Tables(f) && Clocks(f, forgotten)
    ensures Tables(Lasting(f, key, now).0) && Clocks(Lasting(f, key, now).0, forgotten)
    ensures Lasting(f, key, now).0.cleared == f.cleared
  {
    LastingSaid(f, key);
    hide Tables, Clocks;
    if key in f.faultAt && now - f.faultAt[key] >= REMIND {
      ClockedTables(f, key, now);
      ClockedClocks(f, key, now, forgotten);
    }
  }

  lemma LastingSaid(f: Faults, key: Key)
    requires Tables(f)
    ensures key in f.faultAt ==> key in f.said
  {
    assert Placed(f, key);
  }

  lemma SectionTouchesOnly(f: Faults, c: Counts, k: PipeKey, pc: Pc, now: int, x: Key)
    requires !pc.Idle? && x != pc.key
    ensures KeySame(f, NextSection(f, c, k, pc, now).0, x)
  {
  }

  lemma OtherLines(f: Faults, c: Counts, k: PipeKey, pc: Pc, now: int, j: PipeKey)
    requires j != k && (!pc.Idle? && pc.key.Exc? ==> pc.key.pipe == k)
    ensures var c' := NextSection(f, c, k, pc, now).1;
      Number(c'.held, j) == Number(c.held, j) && Number(c'.recovered, j) == Number(c.recovered, j)
  {
    hide Clocked, Recur, Lasting;
  }

  /** A key said without a clock, and not about to get one: its section changes nothing of it. */
  lemma SaidUnclocked(f: Faults, c: Counts, k: PipeKey, pc: Pc, now: int)
    requires Tables(f) && PcOk(f, c, k, pc) && !pc.Idle? && !pc.Seen? && !pc.Raised?
    requires pc.key in f.said && pc.key !in f.faultAt
    ensures KeySame(f, NextSection(f, c, k, pc, now).0, pc.key)
  {
    hide Tables, Clocked;
  }

  lemma RaisedUnclocked(f: Faults, key: Key, now: int)
    requires Tables(f) && key !in f.faultAt
    ensures Recur(f, key, now) == (f, None)
  {
    assert Placed(f, key);
  }

  /** ... and touches no other pipeline's exception keys, no clock about to be set
      by another, and no other pipeline's lines. */
  lemma SectionTouches(f: Faults, c: Counts, k: PipeKey, pc: Pc, now: int, j: PipeKey, x: Key)
    requires Tables(f) && PcOk(f, c, k, pc) && j != k
    requires (x.Exc? && x.pipe == j) || (x in f.said && x !in f.faultAt && !(pc.Seen? && pc.key == x))
    ensures var (f', c', _) := NextSection(f, c, k, pc, now);
      KeySame(f, f', x) && Number(c'.held, j) == Number(c.held, j) && Number(c'.recovered, j) == Number(c.recovered, j)
  {
    PcOwn(f, c, k, pc);
    hide Tables, PcOk, KeySame, Number;
    OtherLines(f, c, k, pc, now, j);
    if pc.Idle? {
      SameKey(f, x);
    } else if x != pc.key {
      SectionTouchesOnly(f, c, k, pc, now, x);
    } else if pc.Raised? {
      RaisedUnclocked(f, x, now);
      SameKey(f, x);
    } else {
      SaidUnclocked(f, c, k, pc, now);
    }
  }

  lemma SameKey(f: Faults, x: Key)
    ensures KeySame(f, f, x)
  {
  }

  lemma PcOwn(f: Faults, c: Counts, k: PipeKey, pc: Pc)
    requires PcOk(f, c, k, pc)
    ensures !pc.Idle? && pc.key.Exc? ==> pc.key.pipe == k
  {
  }

  /** No step of any thread breaks the invariant, whatever comes between, while no two
      pipelines share a key. */
  lemma StepKeeps(who: Thread -> PipeKey, s: State, s': State, t: Thread, step: Step)
    requires Distinct(who) && Inv(who, s) && Takes(who, s, s', t, step)
    ensures Inv(who, s')
  {
    var pc := PcOf(s, t);
    match step
    case Raise(kind) => IdleStepKeeps(who, s, s', t);
    case FileFault(key) => IdleStepKeeps(who, s, s', t);
    case Clean =>
      ClearExceptionsKeeps(s.f, who(t));
      SameClocks(s.f, s'.f, s.forgotten);
      RecoverBalances(s.c, who(t));
      OwnStepKeeps(who, s, s', t);
    case FileClear(key) =>
      ClearFaultKeeps(s.f, key, s.forgotten);
      PendingKept(who, s, key);
      OwnStepKeeps(who, s, s', t);
    case OnceLine(key) =>
      FirstSightTables(s.f, key);
      SameClocks(s.f, s'.f, s.forgotten);
      OwnStepKeeps(who, s, s', t);
    case ForgetAll(keep) =>
      ForgetKeeps(s.f, keep, s.forgotten);
      ForgetBalances(s.c, keep);
      hide Tables, Clocks, Balance, Forget;
      forall u: Thread ensures PcOk(s'.f, s'.c, who(u), PcOf(s', u)) { assert PcOf(s, u) == Idle; }
      forall u: Thread, v: Thread ensures OneStamper(s', u, v) { assert PcOf(s, u) == Idle; }
    case Section(now) =>
      assert PcOk(s.f, s.c, who(t), pc);
      SectionKeeps(s.f, s.c, s.forgotten, who(t), pc, now);
      SectionStepKeeps(who, s, s', t, now);
  }

  lemma ForgetBalances(c: Counts, keep: set<PipeKey>)
    requires Balance(c)
    ensures Balance(c.(owed := c.owed * keep))
  {
    var c' := c.(owed := c.owed * keep);
    forall k: PipeKey ensures BalanceAt(c', k) { assert BalanceAt(c, k); }
    Fewer(c.owed, c.owed * keep);
  }

  /** A clock about to be set is not cleared by a file that came right. */
  lemma PendingKept(who: Thread -> PipeKey, s: State, key: Key)
    requires Inv(who, s) && !key.Exc?
    ensures forall x: Key :: x in s.f.said && x !in s.f.faultAt ==> KeySame(s.f, ClearFault(s.f, key), x)
  {
  }

  lemma IdleStepKeeps(who: Thread -> PipeKey, s: State, s': State, t: Thread)
    requires Inv(who, s) && PcOf(s, t) == Idle
    requires s'.f == s.f && s'.c == s.c && s'.forgotten == s.forgotten && s'.pcs == s.pcs[t := PcOf(s', t)]
    requires PcOk(s.f, s.c, who(t), PcOf(s', t)) && !PcOf(s', t).Seen?
    ensures Inv(who, s')
  {
    forall u: Thread ensures PcOk(s'.f, s'.c, who(u), PcOf(s', u)) {
      assert PcOk(s.f, s.c, who(u), PcOf(s, u));
    }
    forall u: Thread, v: Thread ensures OneStamper(s', u, v) { assert OneStamper(s, u, v); }
  }

  /** A step outside any decision, of a thread that is idle. */
  lemma OwnStepKeeps(who: Thread -> PipeKey, s: State, s': State, t: Thread)
    requires Distinct(who) && Inv(who, s) && PcOf(s, t) == Idle && s'.pcs == s.pcs && s'.forgotten == s.forgotten
    requires Tables(s'.f) && Clocks(s'.f, s'.forgotten) && Balance(s'.c)
    requires forall x: Key :: (x.Exc? && x.pipe != who(t)) || (x in s.f.said && x !in s.f.faultAt) ==>
               KeySame(s.f, s'.f, x) || (x.Exc? && x.pipe == who(t))
    requires forall j: PipeKey :: j != who(t) ==>
               Number(s'.c.held, j) == Number(s.c.held, j) && Number(s'.c.recovered, j) == Number(s.c.recovered, j)
    ensures Inv(who, s')
  {
    hide Tables, Clocks, Balance, KeySame, Number;
    forall u: Thread ensures PcOk(s'.f, s'.c, who(u), PcOf(s', u)) {
      assert PcOk(s.f, s.c, who(u), PcOf(s, u));
      if u == t {
        IdleOk(s'.f, s'.c, who(u));
      } else {
        PcOwn(s.f, s.c, who(u), PcOf(s, u));
        PcSeen(s.f, s.c, who(u), PcOf(s, u));
        OthersKeep(s.f, s'.f, s.c, s'.c, who(u), PcOf(s, u));
      }
    }
    forall u: Thread, v: Thread ensures OneStamper(s', u, v) { assert OneStamper(s, u, v); }
  }

  lemma IdleOk(f: Faults, c: Counts, k: PipeKey)
    ensures PcOk(f, c, k, Idle)
  {
  }

  lemma PcSeen(f: Faults, c: Counts, k: PipeKey, pc: Pc)
    requires PcOk(f, c, k, pc)
    ensures pc.Seen? ==> pc.key in f.said && pc.key !in f.faultAt
  {
  }

  lemma SectionStepKeeps(who: Thread -> PipeKey, s: State, s': State, t: Thread, now: int)
    requires Distinct(who) && Inv(who, s) && Takes(who, s, s', t, Section(now))
    requires Tables(s'.f) && Clocks(s'.f, s'.forgotten) && Balance(s'.c) && PcOk(s'.f, s'.c, who(t), PcOf(s', t))
    ensures Inv(who, s')
  {
    var pc := PcOf(s, t);
    assert PcOk(s.f, s.c, who(t), pc);
    forall u: Thread ensures PcOk(s'.f, s'.c, who(u), PcOf(s', u)) {
      var pcu := PcOf(s, u);
      assert PcOk(s.f, s.c, who(u), pcu) && OneStamper(s, u, t);
      if u != t {
        SectionTouches(s.f, s.c, who(t), pc, now, who(u), Exc(who(u), 0));
        if pcu.Seen? || (!pcu.Idle? && pcu.key.Exc?) { SectionTouches(s.f, s.c, who(t), pc, now, who(u), pcu.key); }
        OthersKeep(s.f, s'.f, s.c, s'.c, who(u), pcu);
      }
    }
    forall u: Thread, v: Thread ensures OneStamper(s', u, v) {
      assert OneStamper(s, u, v) && PcOk(s.f, s.c, who(u), PcOf(s, u)) && PcOk(s.f, s.c, who(v), PcOf(s, v));
    }
  }

  // ---- whole runs ------------------------------------------------------------------------------

  const EMPTY: State := State(Faults({}, map[], map[], {}, map[]), Counts({}, map[], map[]), {}, map[])

  /** A run of any number of threads, from the empty gate. */
  ghost predicate Runs(who: Thread -> PipeKey, run: seq<State>, threads: seq<Thread>, steps: seq<Step>) {
    && |threads| == |steps| == |run| - 1 && run[0] == EMPTY
    && forall i :: 0 <= i < |steps| ==> Takes(who, run[i], run[i + 1], threads[i], steps[i])
  }

  /** Every state it reaches. */
  lemma {:induction false} RunKeeps(who: Thread -> PipeKey, run: seq<State>, threads: seq<Thread>, steps: seq<Step>)
    requires Distinct(who) && Runs(who, run, threads, steps)
    ensures Inv(who, run[|run| - 1])
  {
    if |run| > 1 {
      hide Inv, Takes;
      var n := |steps| - 1;
      assert run[..|run| - 1][n] == run[n];
      RunKeeps(who, run[..|run| - 1], threads[..n], steps[..n]);
      StepKeeps(who, run[n], run[n + 1], threads[n], steps[n]);
    } else {
      EmptyInv(who);
    }
  }

  lemma EmptyInv(who: Thread -> PipeKey)
    ensures Inv(who, EMPTY)
  {
  }

  /** What the invariant promises: the exception tables lie inside the clocks, the
      clocks inside what was said, within the cap; two ERROR lines of one exception
      key are six hours apart; recovery lines never outnumber ERROR lines. */
  lemma InvariantMeans(who: Thread -> PipeKey, s: State, x: Key, k: PipeKey, i: nat, j: nat)
    requires Inv(who, s)
    ensures x in KeysOf(s.f.excKeys, k) ==> x !in s.f.cleared && x in s.f.faultAt
    ensures x in s.f.cleared ==> x in s.f.faultAt
    ensures x in s.f.faultAt ==> x in s.f.said
    ensures |s.f.said| <= SAID_CAP && |s.c.owed| <= SAID_CAP
    ensures x.Exc? && x.pipe !in s.forgotten && i < j < |ErrorsOf(s.f.errors, x)| ==>
      ErrorsOf(s.f.errors, x)[j] - ErrorsOf(s.f.errors, x)[i] >= REMIND * (j - i)
    ensures Number(s.c.recovered, k) <= Number(s.c.held, k)
  {
    assert Listed(s.f, x, k) && Placed(s.f, x) && BalanceAt(s.c, k);
    if x.Exc? && x.pipe !in s.forgotten && i < j < |ErrorsOf(s.f.errors, x)| {
      assert ClockAt(s.f, x);
      LinesApart(ErrorsOf(s.f.errors, x), i, j);
    }
  }

  // ---- two pipelines of one key -----------------------------------------------------------------

  lemma OneMore(who: Thread -> PipeKey, run: seq<State>, threads: seq<Thread>, steps: seq<Step>, t: Thread, step: Step)
    requires Runs(who, run, threads, steps) && Ready(run[|run| - 1], t, step)
    ensures Runs(who, run + [After(who, run[|run| - 1], t, step)], threads + [t], steps + [step])
  {
    hide After, Ready;
    var run' := run + [After(who, run[|run| - 1], t, step)];
    forall i | 0 <= i < |steps| + 1 ensures Takes(who, run'[i], run'[i + 1], (threads + [t])[i], (steps + [step])[i]) {
      if i < |steps| { assert Takes(who, run[i], run[i + 1], threads[i], steps[i]); }
    }
  }

  /** A decision that raises for the first time: its six sections, at time 0. */
  lemma FirstOutbreak(who: Thread -> PipeKey, t: Thread) returns (run: seq<State>, threads: seq<Thread>, steps: seq<Step>)
    ensures Runs(who, run, threads, steps)
    ensures var k, x, s := who(t), Exc(who(t), 0), run[|run| - 1];
      && s.f == Faults({x}, map[x := 0], map[k := {x}], {}, map[x := [0]])
      && (forall u :: u in s.pcs ==> s.pcs[u] == Idle)
  {
    var x := Exc(who(t), 0);
    run, threads, steps := [EMPTY], [], [];
    OneMore(who, run, threads, steps, t, Raise(0));
    run, threads, steps := run + [After(who, EMPTY, t, Raise(0))], threads + [t], steps + [Raise(0)];
    var s := run[1];
    assert s.pcs == map[t := Raised(x)];
    for i := 0 to 5
      invariant |run| == i + 2 && Runs(who, run, threads, steps) && s == run[i + 1]
      invariant s == OutbreakAt(who(t), t, i)
    {
      SectionAt(who, t, i);
      OneMore(who, run, threads, steps, t, Section(0));
      s := After(who, s, t, Section(0));
      run, threads, steps := run + [s], threads + [t], steps + [Section(0)];
    }
  }

  /** The tables and the place of that decision. */
  function PartsAt(k: PipeKey, i: nat): (Faults, Counts, Pc) {
    var x := Exc(k, 0);
    var held := Counts({}, map[k := 1], map[]);
    if i == 0 then (EMPTY.f, EMPTY.c, Raised(x))
    else if i == 1 then (EMPTY.f, EMPTY.c, Judging(x))
    else if i == 2 then (EMPTY.f, EMPTY.c, Seeking(x))
    else if i == 3 then (Faults({x}, map[], map[], {}, map[]), EMPTY.c, Seen(x))
    else if i == 4 then (Faults({x}, map[x := 0], map[], {}, map[x := [0]]), held, Noting(x, First))
    else (Faults({x}, map[x := 0], map[k := {x}], {}, map[x := [0]]), held.(owed := {k}), Idle)
  }

  function OutbreakAt(k: PipeKey, t: Thread, i: nat): State {
    var (f, c, pc) := PartsAt(k, i);
    State(f, c, {}, map[t := pc])
  }

  lemma SectionAt(who: Thread -> PipeKey, t: Thread, i: nat)
    requires i < 5
    ensures Ready(OutbreakAt(who(t), t, i), t, Section(0))
    ensures After(who, OutbreakAt(who(t), t, i), t, Section(0)) == OutbreakAt(who(t), t, i + 1)
  {
    var k := who(t);
    if i < 3 { AsksFirst(k, i); } else if i == 3 { Stamps(k); } else { Notes(k); }
    NeverIdle(k, i);
    hide PartsAt, NextSection;
    var (f, c, pc) := PartsAt(k, i);
    assert forall pc' :: map[t := pc][t := pc'] == map[t := pc'];
  }

  lemma NeverIdle(k: PipeKey, i: nat)
    requires i < 5
    ensures PartsAt(k, i).2 != Idle
  {
  }

  lemma AsksFirst(k: PipeKey, i: nat)
    requires i < 3
    ensures var (f, c, pc) := PartsAt(k, i); NextSection(f, c, k, pc, 0) == PartsAt(k, i + 1)
  {
    hide Clocked, OneHeld;
    assert {} + {Exc(k, 0)} == {Exc(k, 0)};
  }

  lemma Stamps(k: PipeKey)
    ensures var (f, c, pc) := PartsAt(k, 3); NextSection(f, c, k, pc, 0) == PartsAt(k, 4)
  {
    var x := Exc(k, 0);
    assert ErrorsOf(map[], x) + [0] == [0];
    var f := Clocked(PartsAt(k, 3).0, x, 0);
    assert f.faultAt == map[x := 0] && f.errors == map[x := [0]];
    assert OneHeld(EMPTY.c, x).held == map[k := 1];
  }

  lemma Notes(k: PipeKey)
    ensures var (f, c, pc) := PartsAt(k, 4); NextSection(f, c, k, pc, 0) == PartsAt(k, 5)
  {
    var x := Exc(k, 0);
    assert KeysOf(map[], k) + {x} == {x};
    var f, c := NoteException(PartsAt(k, 4).0, k, x), Owe(PartsAt(k, 4).1, k, First);
    assert f.excKeys == map[k := {x}];
    assert |PartsAt(k, 4).1.owed| == 0;
    assert c.owed == {k};
  }

  /** Two pipelines of one key: the second's decision notes the exception while the
      first's clean one clears it, and the key is listed and cleared at once. */
  lemma SharedKeyBreaksTheTables(who: Thread -> PipeKey, t: Thread, u: Thread)
    returns (run: seq<State>, threads: seq<Thread>, steps: seq<Step>)
    requires t != u && who(t) == who(u)
    ensures Runs(who, run, threads, steps) && !Tables(run[|run| - 1].f)
  {
    var k, x := who(t), Exc(who(t), 0);
    run, threads, steps := FirstOutbreak(who, t);
    var s := run[|run| - 1];
    var plan := [(u, Raise(0)), (u, Section(0)), (u, Section(0)), (t, Clean), (u, Section(0))];
    ghost var f := s.f;
    for i := 0 to 5
      invariant Runs(who, run, threads, steps) && s == run[|run| - 1]
      invariant i < 4 ==> s.f == f
      invariant PcOf(s, t) == Idle
      invariant PcOf(s, u) == if i == 0 || i == 5 then Idle else if i == 1 then Raised(x) else if i == 2 then Judging(x)
                              else Noting(x, Silent)
      invariant i == 4 ==> s.f == ClearExceptions(f, k)
      invariant i == 5 ==> s.f == NoteException(ClearExceptions(f, k), k, x)
    {
      hide Runs;
      OneMore(who, run, threads, steps, plan[i].0, plan[i].1);
      s := After(who, s, plan[i].0, plan[i].1);
      run, threads, steps := run + [s], threads + [plan[i].0], steps + [plan[i].1];
    }
    assert x in s.f.cleared && x in KeysOf(s.f.excKeys, k);
    assert !Listed(s.f, x, k);
  }

  /** So the tables stand on every run exactly when no two pipelines share a key (two
      legacy ones may share a name). */
  lemma TablesStandIff(who: Thread -> PipeKey)
    ensures (forall run, threads, steps :: Runs(who, run, threads, steps) ==> Inv(who, run[|run| - 1])) <==> Distinct(who)
  {
    if Distinct(who) {
      forall run, threads, steps | Runs(who, run, threads, steps) ensures Inv(who, run[|run| - 1]) {
        RunKeeps(who, run, threads, steps);
      }
    } else {
      var t: Thread, u: Thread :| t != u && who(t) == who(u);
      var run, threads, steps := SharedKeyBreaksTheTables(who, t, u);
    }
  }

  /** A gate that one pipeline at a time asks: its thread is its key. */
  const OWN: Thread -> PipeKey := k => k
}
