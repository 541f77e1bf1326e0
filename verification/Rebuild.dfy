/** The daemon's running set, rebuilt between pumps (daemon.py): slot reuse,
    whole files accepted or refused, last-good fallback. Objects are known by
    their identity, a number. */
module Rebuild {
  import opened Cursors
  import opened Sink
  import W = WatermarkStore

  const LEGACY := "legacy"

  /** A manifest entry; an empty name or builder is none, `body` the rest of it. */
  datatype Entry = Entry(name: string, builder: string, body: int)

  /** One built pipeline and the identities of what it holds. */
  datatype Pipe = Pipe(id: nat, name: string, key: W.Key, origin: string, source: nat, transport: nat,
                       fallback: Option<nat>, producer: bool)

  /** The objects a pipeline holds. */
  function Holds(p: Pipe): set<nat> {
    {p.source, p.transport} + if p.fallback.Some? then {p.fallback.value} else {}
  }

  datatype Slot = Slot(origin: string, index: Option<nat>, entry: Entry, pipes: seq<Pipe>)

  datatype Build = Build(slots: seq<Slot>, good: map<string, seq<Entry>>, refused: set<string>, added: seq<Pipe>)

  /** An entry and the file, or the legacy layout, it stands in. */
  datatype Filed = Filed(entry: Entry, origin: string)

  datatype Layout = Layout(entries: seq<Filed>, refused: set<string>)

  // ---- entries, slots and tags -----------------------------------------------------

  /** The index an entry's default name depends on, if any. */
  function NamingIndex(e: Entry, i: nat): Option<nat> {
    if e.name != "" || e.builder != "" then None else Some(i)
  }

  type Tag = (Option<nat>, Entry)

  predicate Bears(s: Slot, origin: string, tag: Tag) {
    s.origin == origin && s.index == tag.0 && s.entry == tag.1
  }

  /** How many slots of one origin bear a tag, and how many entries. */
  function Count(slots: seq<Slot>, origin: string, tag: Tag): nat {
    if slots == [] then 0
    else Count(slots[..|slots| - 1], origin, tag) + if Bears(slots[|slots| - 1], origin, tag) then 1 else 0
  }

  function CountEntries(es: seq<Entry>, tag: Tag): nat {
    if es == [] then 0
    else CountEntries(es[..|es| - 1], tag) + if TagAt(es, |es| - 1) == tag then 1 else 0
  }

  function TagAt(es: seq<Entry>, i: nat): Tag
    requires i < |es|
  {
    (NamingIndex(es[i], i), es[i])
  }

  /** These slots are what these entries build, one for one, in order. */
  ghost predicate Fits(slots: seq<Slot>, origin: string, es: seq<Entry>) {
    && |slots| == |es|
    && forall i :: 0 <= i < |es| ==>
         slots[i].origin == origin && slots[i].index == NamingIndex(es[i], i) && slots[i].entry == es[i]
  }

  function Only(slots: seq<Slot>, origins: set<string>): (r: seq<Slot>)
    ensures forall s :: s in r <==> s in slots && s.origin in origins
  {
    if slots == [] then []
    else
      var s := slots[|slots| - 1];
      assert slots == slots[..|slots| - 1] + [s];
      Only(slots[..|slots| - 1], origins) + if s.origin in origins then [s] else []
  }

  function SlotsOf(slots: seq<Slot>, origin: string): seq<Slot> {
    Only(slots, {origin})
  }

  function PipesOf(slots: seq<Slot>): (r: seq<Pipe>)
    ensures forall p :: p in r <==> exists s :: s in slots && p in s.pipes
  {
    if slots == [] then []
    else
      assert slots == slots[..|slots| - 1] + [slots[|slots| - 1]];
      PipesOf(slots[..|slots| - 1]) + slots[|slots| - 1].pipes
  }

  lemma {:induction false} CountConcat(a: seq<Slot>, b: seq<Slot>, origin: string, tag: Tag)
    ensures Count(a + b, origin, tag) == Count(a, origin, tag) + Count(b, origin, tag)
  {
    if b == [] {
      assert a + b == a;
    } else {
      assert (a + b)[..|a + b| - 1] == a + b[..|b| - 1];
      CountConcat(a, b[..|b| - 1], origin, tag);
    }
  }

  lemma TakenOut<T>(b: seq<T>, i: nat)
    requires i < |b|
    ensures multiset(b[..i] + b[i + 1..]) + multiset{b[i]} == multiset(b)
  {
    assert b == b[..i] + [b[i]] + b[i + 1..];
  }

  lemma CancelOne<T>(a: multiset<T>, b: multiset<T>, x: T)
    requires a + multiset{x} == b + multiset{x}
    ensures a == b
  {
    assert a == (a + multiset{x}) - multiset{x};
  }

  lemma CountTakenOut(b: seq<Slot>, i: nat, origin: string, tag: Tag)
    requires i < |b|
    ensures Count(b, origin, tag) == Count(b[..i] + b[i + 1..], origin, tag) + if Bears(b[i], origin, tag) then 1 else 0
  {
    CountConcat(b[..i], b[i + 1..], origin, tag);
    CountConcat(b[..i] + [b[i]], b[i + 1..], origin, tag);
    assert (b[..i] + [b[i]])[..i] == b[..i];
    assert b == b[..i] + [b[i]] + b[i + 1..];
  }

  lemma {:induction false} CountOfPermutation(a: seq<Slot>, b: seq<Slot>, origin: string, tag: Tag)
    requires multiset(a) == multiset(b)
    ensures Count(a, origin, tag) == Count(b, origin, tag)
  {
    if a == [] {
      assert |multiset(b)| == 0;
    } else {
      var s := a[|a| - 1];
      assert s in multiset(b);
      var i :| 0 <= i < |b| && b[i] == s;
      TakenOut(b, i);
      TakenOut(a, |a| - 1);
      assert a[..|a| - 1] + a[|a|..] == a[..|a| - 1];
      CancelOne(multiset(a[..|a| - 1]), multiset(b[..i] + b[i + 1..]), s);
      hide *;
      CountTakenOut(b, i, origin, tag);
      CountTakenOut(a, |a| - 1, origin, tag);
      CountOfPermutation(a[..|a| - 1], b[..i] + b[i + 1..], origin, tag);
    }
  }

  lemma {:induction false} CountPositive(slots: seq<Slot>, origin: string, tag: Tag)
    ensures 0 < Count(slots, origin, tag) <==> exists s :: s in slots && Bears(s, origin, tag)
  {
    if slots != [] {
      CountPositive(slots[..|slots| - 1], origin, tag);
      assert slots == slots[..|slots| - 1] + [slots[|slots| - 1]];
    }
  }

  lemma {:induction false} FitsCount(slots: seq<Slot>, origin: string, es: seq<Entry>, tag: Tag)
    requires Fits(slots, origin, es)
    ensures Count(slots, origin, tag) == CountEntries(es, tag)
  {
    if es != [] {
      var front := es[..|es| - 1];
      assert forall i :: 0 <= i < |front| ==> TagAt(front, i) == TagAt(es, i);
      FitsCount(slots[..|slots| - 1], origin, front, tag);
    }
  }

  lemma {:induction false} CountPrefix(es: seq<Entry>, i: nat)
    requires i < |es|
    ensures CountEntries(es[..i], TagAt(es, i)) < CountEntries(es, TagAt(es, i))
  {
    if i < |es| - 1 {
      CountPrefix(es[..|es| - 1], i);
      assert es[..|es| - 1][..i] == es[..i];
    }
  }

  lemma {:induction false} CountOnly(slots: seq<Slot>, origin: string, tag: Tag)
    ensures Count(SlotsOf(slots, origin), origin, tag) == Count(slots, origin, tag)
  {
    if slots != [] {
      CountOnly(slots[..|slots| - 1], origin, tag);
      var f := SlotsOf(slots[..|slots| - 1], origin);
      var s := slots[|slots| - 1];
      if s.origin == origin { assert (f + [s])[..|f|] == f; } else { assert f + [] == f; }
    }
  }

  /** `all` is `a` and `b`, in some order. */
  ghost predicate Split(all: seq<Slot>, a: seq<Slot>, b: seq<Slot>) {
    multiset(all) == multiset(a) + multiset(b)
  }

  lemma SplitMore(all: seq<Slot>, a: seq<Slot>, b: seq<Slot>, x: seq<Slot>)
    requires Split(all, a, b)
    ensures Split(all + x, a + x, b) && Split(all + x, a, b + x)
  {
  }

  lemma SplitThen(all: seq<Slot>, a: seq<Slot>, b: seq<Slot>, a': seq<Slot>, x: seq<Slot>)
    requires Split(all, a, b) && Split(a, a', x)
    ensures Split(all, a', b + x)
  {
  }

  // ---- identity ------------------------------------------------------------------------

  /** One object, or a shared one. */
  predicate Touch(p: Pipe, q: Pipe) {
    p.id == q.id || Holds(p) * Holds(q) != {}
  }

  /** No pipeline object stands in two places, and slots share none of what they hold. */
  ghost predicate Unique(m: multiset<Slot>) {
    && (forall s :: s in m && s.pipes != [] ==> m[s] == 1)
    && (forall s :: s in m ==> Distinct(s.pipes))
    && (forall s, t, p, q :: s in m && t in m && p in s.pipes && q in t.pipes && Touch(p, q) ==> s == t)
  }

  ghost predicate Distinct(ps: seq<Pipe>) {
    forall i, j :: 0 <= i < j < |ps| ==> ps[i].id != ps[j].id
  }

  ghost predicate UniqueSlots(slots: seq<Slot>) {
    Unique(multiset(slots))
  }

  lemma UniqueSub(a: multiset<Slot>, b: multiset<Slot>)
    requires a <= b && Unique(b)
    ensures Unique(a)
  {
  }

  /** Every object of the slot, pipeline or held, was made in [lo, hi). */
  predicate MadeIn(s: Slot, lo: nat, hi: nat) {
    Named(s) && forall p :: p in s.pipes ==> PipeMadeIn(p, s.origin, lo, hi)
  }

  /** A generic entry's pipeline bears the name the entry, where it stands, gives it. */
  predicate Named(s: Slot) {
    s.entry.builder == "" && s.pipes != [] ==>
      |s.pipes| == 1 && s.pipes[0].name == (if s.index.Some? then "pipeline-" + Decimal(s.index.value) else s.entry.name)
  }

  predicate PipeMadeIn(p: Pipe, origin: string, lo: nat, hi: nat) {
    && p.origin == origin && lo <= p.id < hi && lo <= p.source < hi && lo <= p.transport < hi
    && (p.fallback.Some? ==> lo <= p.fallback.value < hi)
  }

  lemma UniqueOne(s: Slot)
    requires Distinct(s.pipes)
    ensures Unique(multiset{s})
  {
    hide Distinct;
  }

  lemma MadeApart(s: Slot, t: Slot, p: Pipe, q: Pipe, lo: nat, mid: nat, hi: nat)
    requires p in s.pipes && q in t.pipes && Touch(p, q)
    ensures !(MadeIn(s, lo, mid) && MadeIn(t, mid, hi)) && !(MadeIn(t, lo, mid) && MadeIn(s, mid, hi))
  {
    var n: nat := if p.id == q.id then p.id else var n :| n in Holds(p) * Holds(q); n;
    if MadeIn(s, lo, mid) { assert PipeMadeIn(p, s.origin, lo, mid); }
    if MadeIn(s, mid, hi) { assert PipeMadeIn(p, s.origin, mid, hi); }
    if MadeIn(t, lo, mid) { assert PipeMadeIn(q, t.origin, lo, mid); }
    if MadeIn(t, mid, hi) { assert PipeMadeIn(q, t.origin, mid, hi); }
  }

  lemma UniqueUnion(a: multiset<Slot>, b: multiset<Slot>, lo: nat, mid: nat, hi: nat)
    requires Unique(a) && Unique(b)
    requires forall s :: s in a ==> MadeIn(s, lo, mid)
    requires forall s :: s in b ==> MadeIn(s, mid, hi)
    ensures Unique(a + b)
  {
    forall s, t, p, q | s in a + b && t in a + b && p in s.pipes && q in t.pipes && Touch(p, q)
      ensures s == t
    {
      MadeApart(s, t, p, q, lo, mid, hi);
    }
    forall s | s in a + b && s.pipes != [] ensures (a + b)[s] == 1 {
      assert s.pipes[0] in s.pipes;
      if s in a { assert s.pipes[0].id < mid; }
      if s in b { assert mid <= s.pipes[0].id; }
    }
  }

  lemma SameSlot(m: multiset<Slot>, s: Slot, t: Slot, p: Pipe, q: Pipe)
    requires Unique(m) && s in m && t in m && p in s.pipes && q in t.pipes && Touch(p, q)
    ensures s == t
  {
  }

  lemma UniqueAcross(front: seq<Slot>, s: Slot, p: Pipe, q: Pipe)
    requires UniqueSlots(front + [s]) && p in PipesOf(front) && q in s.pipes
    ensures p.id != q.id
  {
    var t :| t in front && p in t.pipes;
    var m := multiset(front + [s]);
    assert m == multiset(front) + multiset{s};
    assert t in multiset(front);
    assert m[s] == 1;
    hide Unique;
    if p.id == q.id { SameSlot(m, t, s, p, q); }
  }

  /** Within unique slots no two places of the pipeline list hold the same object. */
  lemma {:induction false} UniquePlaces(slots: seq<Slot>)
    requires UniqueSlots(slots)
    ensures Distinct(PipesOf(slots))
  {
    if slots != [] {
      var front, s := slots[..|slots| - 1], slots[|slots| - 1];
      assert slots == front + [s];
      assert multiset(slots) == multiset(front) + multiset{s};
      UniqueSub(multiset(front), multiset(slots));
      UniquePlaces(front);
      assert Distinct(s.pipes) by { assert s in multiset(slots); }
      DistinctConcat(front, s);
    }
  }

  lemma DistinctConcat(front: seq<Slot>, s: Slot)
    requires UniqueSlots(front + [s]) && Distinct(PipesOf(front)) && Distinct(s.pipes)
    ensures Distinct(PipesOf(front) + s.pipes)
  {
    hide UniqueSlots, PipesOf;
    var a := PipesOf(front);
    forall i: nat, j: nat | i < j < |a| + |s.pipes| ensures (a + s.pipes)[i].id != (a + s.pipes)[j].id {
      if i < |a| <= j {
        UniqueAcross(front, s, a[i], s.pipes[j - |a|]);
      }
    }
  }

  // ---- the pool ---------------------------------------------------------------------------

  class Pool {
    var free: seq<Slot>

    constructor (slots: seq<Slot>)
      ensures free == slots
    {
      free := slots;
    }

    /** The first slot of this origin, index and entry leaves the pool. */
    method Take(origin: string, index: Option<nat>, entry: Entry) returns (slot: Option<Slot>)
      modifies this
      ensures slot.None? ==>
        && free == old(free)
        && forall s :: s in free ==> !(s.origin == origin && s.index == index && s.entry == entry)
      ensures slot.Some? ==>
        && slot.value.origin == origin && slot.value.index == index && slot.value.entry == entry
        && slot.value in old(free) && Split(old(free), free, [slot.value])
    {
      for i := 0 to |free|
        invariant free == old(free)
        invariant forall j :: 0 <= j < i ==>
          !(free[j].origin == origin && free[j].index == index && free[j].entry == entry)
      {
        var s := free[i];
        if s.origin == origin && s.index == index && s.entry == entry {
          assert free == free[..i] + [s] + free[i + 1..];
          free := free[..i] + free[i + 1..];
          return Some(s);
        }
      }
      return None;
    }

    method GiveBack(slots: seq<Slot>)
      modifies this
      ensures free == old(free) + slots
    {
      free := free + slots;
    }
  }

  // ---- building -------------------------------------------------------------------------------

  /** What building one entry may return: new objects, as many as it likes for a
      builder, one of the entry's own name otherwise. */
  predicate MayBuild(pipes: seq<Pipe>, e: Entry, origin: string, i: nat, lo: nat, hi: nat) {
    && (forall p :: p in pipes ==> PipeMadeIn(p, origin, lo, hi))
    && (forall j, k :: 0 <= j < k < |pipes| ==> pipes[j].id != pipes[k].id)
    && (e.builder == "" ==> |pipes| == 1 && pipes[0].name == (if e.name != "" then e.name else "pipeline-" + Decimal(i)))
  }

  /** Where objects come from, and every attempt to close one. */
  class Works {
    var nextId: nat
    var closings: seq<nat>
    ghost var built: set<Pipe>

    constructor ()
      ensures nextId == 0 && closings == [] && built == {}
    {
      nextId, closings, built := 0, [], {};
    }

    /** `_build_one`: it may fail, and builds what it likes. */
    method BuildOne(e: Entry, origin: string, i: nat) returns (pipes: Option<seq<Pipe>>)
      modifies this`nextId, this`built
      ensures old(nextId) <= nextId
      ensures pipes.None? ==> built == old(built)
      ensures pipes.Some? ==>
        && MayBuild(pipes.value, e, origin, i, old(nextId), nextId)
        && built == old(built) + set p | p in pipes.value
    {
      var ps: seq<Pipe>, hi: nat := *, *;
      pipes := None;
      if nextId <= hi && MayBuild(ps, e, origin, i, nextId, hi) {
        pipes := Some(ps);
        nextId := hi;
        built := built + set p | p in ps;
      }
    }

    /** `_close_quietly`: the source of each. */
    method CloseQuietly(pipes: seq<Pipe>)
      modifies this`closings
      ensures closings == old(closings) + SourcesOf(pipes)
    {
      for i := 0 to |pipes|
        invariant closings == old(closings) + SourcesOf(pipes[..i])
      {
        assert pipes[..i + 1][..i] == pipes[..i];
        closings := closings + [pipes[i].source];
      }
      assert pipes[..|pipes|] == pipes;
    }
  }

  function SourcesOf(pipes: seq<Pipe>): (r: seq<nat>)
    ensures forall n :: n in r <==> exists p :: p in pipes && p.source == n
  {
    if pipes == [] then []
    else
      assert pipes == pipes[..|pipes| - 1] + [pipes[|pipes| - 1]];
      SourcesOf(pipes[..|pipes| - 1]) + [pipes[|pipes| - 1].source]
  }

  /** Slots made in [lo, hi), each its own objects, named by its entry. */
  ghost predicate Made(made: seq<Slot>, lo: nat, hi: nat) {
    lo <= hi && UniqueSlots(made) && forall s :: s in made ==> MadeIn(s, lo, hi)
  }

  lemma BuiltSlot(s: Slot, i: nat, lo: nat, hi: nat)
    requires s.index == NamingIndex(s.entry, i)
    requires s.pipes == [] || MayBuild(s.pipes, s.entry, s.origin, i, lo, hi)
    ensures MadeIn(s, lo, hi) && Distinct(s.pipes)
  {
    hide Decimal, PipeMadeIn;
  }

  lemma MadeMore(made: seq<Slot>, s: Slot, lo: nat, mid: nat, hi: nat)
    requires Made(made, lo, mid) && mid <= hi && MadeIn(s, mid, hi) && Distinct(s.pipes)
    ensures Made(made + [s], lo, hi) && PipesOf(made + [s]) == PipesOf(made) + s.pipes
  {
    hide Unique, Distinct;
    UniqueOne(s);
    assert multiset(made + [s]) == multiset(made) + multiset{s};
    UniqueUnion(multiset(made), multiset{s}, lo, mid, hi);
    assert (made + [s])[..|made|] == made;
  }

  lemma PipesConcat(a: seq<Slot>, b: seq<Slot>)
    ensures PipesOf(a + b) == PipesOf(a) + PipesOf(b)
  {
    if b == [] {
      assert a + b == a;
    } else {
      assert (a + b)[..|a + b| - 1] == a + b[..|b| - 1];
      PipesConcat(a, b[..|b| - 1]);
    }
  }

  // ---- what a build step leaves behind ---------------------------------------------------------

  /** Between two states: only objects of [lo, hi) were closed, none of them live,
      and everything built is live or closed. */
  ghost predicate Accounted(lo: nat, hi: nat, c0: seq<nat>, c1: seq<nat>, b0: set<Pipe>, b1: set<Pipe>, live: seq<Pipe>) {
    && lo <= hi && c0 <= c1 && b0 <= b1
    && (forall n :: n in c1[|c0|..] ==> lo <= n < hi)
    && LiveApart(lo, hi, c1[|c0|..], live)
    && (forall p :: p in b1 ==> p in b0 || p in live || p.source in c1[|c0|..])
  }

  /** What the pipeline holds was made in [lo, hi) and not closed. */
  ghost predicate ObjectsApart(p: Pipe, lo: nat, hi: nat, closed: seq<nat>) {
    forall n :: n in Holds(p) ==> lo <= n < hi && n !in closed
  }

  ghost predicate LiveApart(lo: nat, hi: nat, closed: seq<nat>, live: seq<Pipe>) {
    forall p :: p in live ==> ObjectsApart(p, lo, hi, closed)
  }

  lemma AccountedThen(lo: nat, mid: nat, hi: nat, c0: seq<nat>, c1: seq<nat>, c2: seq<nat>, b0: set<Pipe>, b1: set<Pipe>,
                      b2: set<Pipe>, live1: seq<Pipe>, live2: seq<Pipe>)
    requires Accounted(lo, mid, c0, c1, b0, b1, live1) && Accounted(mid, hi, c1, c2, b1, b2, live2)
    ensures Accounted(lo, hi, c0, c2, b0, b2, live1 + live2)
  {
    var d1, d2 := c1[|c0|..], c2[|c1|..];
    assert c2[|c0|..] == d1 + d2;
    LiveJoin(lo, mid, hi, d1, d2, live1, live2);
  }

  lemma LiveJoin(lo: nat, mid: nat, hi: nat, d1: seq<nat>, d2: seq<nat>, live1: seq<Pipe>, live2: seq<Pipe>)
    requires LiveApart(lo, mid, d1, live1) && LiveApart(mid, hi, d2, live2) && lo <= mid <= hi
    requires (forall n :: n in d1 ==> lo <= n < mid) && forall n :: n in d2 ==> mid <= n < hi
    ensures LiveApart(lo, hi, d1 + d2, live1 + live2)
  {
    forall p | p in live1 + live2 ensures ObjectsApart(p, lo, hi, d1 + d2) {
      if p in live1 {
        assert ObjectsApart(p, lo, mid, d1);
      } else {
        assert ObjectsApart(p, mid, hi, d2);
      }
    }
  }

  lemma LiveAt(lo: nat, hi: nat, closed: seq<nat>, live: seq<Pipe>, p: Pipe, n: nat)
    requires LiveApart(lo, hi, closed, live) && p in live && n in Holds(p)
    ensures lo <= n < hi && n !in closed
  {
  }

  // ---- one file --------------------------------------------------------------------------------

  /** The pool can serve every one of these entries. */
  ghost predicate Reusable(free: seq<Slot>, origin: string, es: seq<Entry>) {
    forall tag :: CountEntries(es, tag) <= Count(free, origin, tag)
  }

  lemma NextIsFree(free0: seq<Slot>, free: seq<Slot>, slots: seq<Slot>, origin: string, es: seq<Entry>, i: nat)
    requires i < |es| && Reusable(free0, origin, es) && Fits(slots, origin, es[..i])
    requires Split(free0, free, slots)
    ensures exists s :: s in free && Bears(s, origin, TagAt(es, i))
  {
    var tag := TagAt(es, i);
    assert multiset(free + slots) == multiset(free0);
    CountOfPermutation(free + slots, free0, origin, tag);
    CountConcat(free, slots, origin, tag);
    FitsCount(slots, origin, es[..i], tag);
    CountPrefix(es, i);
    CountPositive(free, origin, tag);
  }

  /** `_build_file`: all of the entries, or none. */
  method BuildFile(pool: Pool, works: Works, es: seq<Entry>, origin: string)
    returns (slots: seq<Slot>, taken: seq<Slot>, added: seq<Pipe>, failed: Option<Entry>, ghost made: seq<Slot>)
    modifies pool, works
    ensures old(works.nextId) <= works.nextId
    ensures failed.None? ==>
      && Fits(slots, origin, es) && Split(slots, taken, made) && Split(old(pool.free), pool.free, taken)
      && added == PipesOf(made) && Made(made, old(works.nextId), works.nextId)
      && works.closings == old(works.closings)
    ensures failed.Some? ==>
      slots == [] && taken == [] && added == [] && made == [] && Split(old(pool.free), pool.free, [])
    ensures Accounted(old(works.nextId), works.nextId, old(works.closings), works.closings, old(works.built), works.built,
                      added)
    ensures Reusable(old(pool.free), origin, es) ==> failed.None? && made == []
  {
    ghost var lo, b0 := works.nextId, works.built;
    slots, taken, added, made, failed := [], [], [], [], None;
    for i := 0 to |es|
      invariant lo <= works.nextId && works.closings == old(works.closings)
      invariant Fits(slots, origin, es[..i]) && Split(slots, taken, made) && Split(old(pool.free), pool.free, taken)
      invariant added == PipesOf(made) && Made(made, lo, works.nextId)
      invariant b0 <= works.built && forall p :: p in works.built ==> p in b0 || p in added
      invariant Reusable(old(pool.free), origin, es) ==> made == []
    {
      hide Count, CountEntries, Unique, PipesOf, MayBuild, MadeIn, Distinct, Split, Reusable, Fits, Made, SourcesOf, Accounted;
      if made == [] && Reusable(old(pool.free), origin, es) {
        AllTaken(slots, taken, old(pool.free), pool.free);
        NextIsFree(old(pool.free), pool.free, slots, origin, es, i);
      }
      ghost var before := pool.free;
      var slot := pool.Take(origin, NamingIndex(es[i], i), es[i]);
      if slot.Some? {
        SplitMore(slots, taken, made, [slot.value]);
        SplitThen(old(pool.free), before, taken, pool.free, [slot.value]);
        FitsMore(slots, slot.value, origin, es, i);
        taken := taken + [slot.value];
        slots := slots + [slot.value];
      } else {
        ghost var mid := works.nextId;
        var pipes := works.BuildOne(es[i], origin, i);
        if pipes.None? {
          works.CloseQuietly(added);
          pool.GiveBack(taken);
          AllClosed(made, lo, mid, works.nextId, old(works.closings), works.closings, b0, works.built);
          SplitBack(old(pool.free), before, taken);
          return [], [], [], Some(es[i]), [];
        }
        var s := Slot(origin, NamingIndex(es[i], i), es[i], pipes.value);
        BuiltSlot(s, i, mid, works.nextId);
        MadeMore(made, s, lo, mid, works.nextId);
        SplitMore(slots, taken, made, [s]);
        FitsMore(slots, s, origin, es, i);
        added := added + pipes.value;
        slots := slots + [s];
        made := made + [s];
      }
    }
    assert es[..|es|] == es;
    NoneClosed(made, lo, works.nextId, works.closings, b0, works.built);
  }

  lemma FitsMore(slots: seq<Slot>, s: Slot, origin: string, es: seq<Entry>, i: nat)
    requires i < |es| && Fits(slots, origin, es[..i])
    requires s.origin == origin && s.index == NamingIndex(es[i], i) && s.entry == es[i]
    ensures Fits(slots + [s], origin, es[..i + 1])
  {
  }

  lemma AllTaken(slots: seq<Slot>, taken: seq<Slot>, free0: seq<Slot>, free: seq<Slot>)
    requires Split(slots, taken, []) && Split(free0, free, taken)
    ensures Split(free0, free, slots)
  {
  }

  lemma SplitBack(all: seq<Slot>, a: seq<Slot>, b: seq<Slot>)
    requires Split(all, a, b)
    ensures Split(all, a + b, [])
  {
  }

  lemma HoldsInRange(made: seq<Slot>, lo: nat, hi: nat, p: Pipe, n: nat)
    requires Made(made, lo, hi) && p in PipesOf(made) && n in Holds(p)
    ensures lo <= n < hi
  {
    hide Unique;
    var s :| s in made && p in s.pipes;
    assert MadeIn(s, lo, hi) && PipeMadeIn(p, s.origin, lo, hi);
  }

  lemma NoneClosed(made: seq<Slot>, lo: nat, hi: nat, c: seq<nat>, b0: set<Pipe>, b1: set<Pipe>)
    requires Made(made, lo, hi) && b0 <= b1 && forall p :: p in b1 ==> p in b0 || p in PipesOf(made)
    ensures Accounted(lo, hi, c, c, b0, b1, PipesOf(made))
  {
    forall p, n | p in PipesOf(made) && n in Holds(p) ensures lo <= n < hi {
      HoldsInRange(made, lo, hi, p, n);
    }
    hide PipesOf, Unique, UniqueSlots, Holds;
    assert c[|c|..] == [];
  }

  lemma AllClosed(made: seq<Slot>, lo: nat, mid: nat, hi: nat, c0: seq<nat>, c1: seq<nat>, b0: set<Pipe>, b1: set<Pipe>)
    requires Made(made, lo, mid) && mid <= hi && b0 <= b1 && forall p :: p in b1 ==> p in b0 || p in PipesOf(made)
    requires c1 == c0 + SourcesOf(PipesOf(made))
    ensures Accounted(lo, hi, c0, c1, b0, b1, [])
  {
    assert c1[|c0|..] == SourcesOf(PipesOf(made));
    forall n | n in SourcesOf(PipesOf(made)) ensures lo <= n < hi {
      var p :| p in PipesOf(made) && p.source == n;
      HoldsInRange(made, lo, mid, p, n);
    }
  }

  // ---- names and keys ----------------------------------------------------------------------------

  datatype Reason = FailedToBuild(entry: Entry) | Collides(pipe: Pipe, other: Pipe)

  predicate Alike(p: Pipe, q: Pipe) {
    p.name == q.name || p.key == q.key
  }

  ghost predicate NameTable(ps: seq<Pipe>, names: map<string, Pipe>) {
    (forall p :: p in ps ==> p.name in names) && forall n :: n in names ==> names[n] in ps && names[n].name == n
  }

  ghost predicate KeyTable(ps: seq<Pipe>, keys: map<W.Key, Pipe>) {
    (forall p :: p in ps ==> p.key in keys) && forall k :: k in keys ==> keys[k] in ps && keys[k].key == k
  }

  /** What the names and keys tables stand for. */
  ghost predicate Tables(ps: seq<Pipe>, names: map<string, Pipe>, keys: map<W.Key, Pipe>) {
    NameTable(ps, names) && KeyTable(ps, keys)
  }

  /** Neither name nor key is taken, among the standing pipelines or one another. */
  ghost predicate Admissible(standing: seq<Pipe>, ps: seq<Pipe>) {
    && (forall p, q :: p in ps && q in standing ==> !Alike(p, q))
    && (forall i, j :: 0 <= i < j < |ps| ==> !Alike(ps[i], ps[j]))
  }

  /** `_collision`. */
  function Collision(p: Pipe, names: map<string, Pipe>, keys: map<W.Key, Pipe>): Option<Pipe> {
    if p.name in names then Some(names[p.name])
    else if p.key in keys then Some(keys[p.key])
    else None
  }

  lemma NameTableIff(ps: seq<Pipe>, names: map<string, Pipe>, name: string)
    requires NameTable(ps, names)
    ensures name in names <==> exists q :: q in ps && q.name == name
    ensures name in names ==> names[name] in ps && names[name].name == name
  {
  }

  lemma KeyTableIff(ps: seq<Pipe>, keys: map<W.Key, Pipe>, key: W.Key)
    requires KeyTable(ps, keys)
    ensures key in keys <==> exists q :: q in ps && q.key == key
    ensures key in keys ==> keys[key] in ps && keys[key].key == key
  {
  }

  lemma CollisionIff(ps: seq<Pipe>, names: map<string, Pipe>, keys: map<W.Key, Pipe>, p: Pipe)
    requires Tables(ps, names, keys)
    ensures Collision(p, names, keys).Some? <==> exists q :: q in ps && Alike(p, q)
    ensures Collision(p, names, keys).Some? ==>
      Collision(p, names, keys).value in ps && Alike(p, Collision(p, names, keys).value)
  {
    hide NameTable, KeyTable;
    NameTableIff(ps, names, p.name);
    KeyTableIff(ps, keys, p.key);
  }

  function SetDefault<K, V>(m: map<K, V>, k: K, v: V): map<K, V> {
    if k in m then m else m[k := v]
  }

  lemma NameTableMore(ps: seq<Pipe>, names: map<string, Pipe>, p: Pipe)
    requires NameTable(ps, names)
    ensures NameTable(ps + [p], names[p.name := p])
    ensures NameTable(ps + [p], SetDefault(names, p.name, p))
  {
    assert p in ps + [p] && forall q :: q in ps ==> q in ps + [p];
  }

  lemma KeyTableMore(ps: seq<Pipe>, keys: map<W.Key, Pipe>, p: Pipe)
    requires KeyTable(ps, keys)
    ensures KeyTable(ps + [p], keys[p.key := p])
    ensures KeyTable(ps + [p], SetDefault(keys, p.key, p))
  {
    assert p in ps + [p] && forall q :: q in ps ==> q in ps + [p];
  }

  lemma BothTablesMore(ps: seq<Pipe>, names: map<string, Pipe>, keys: map<W.Key, Pipe>, p: Pipe)
    requires Tables(ps, names, keys)
    ensures Tables(ps + [p], names[p.name := p], keys[p.key := p])
  {
    NameTableMore(ps, names, p);
    KeyTableMore(ps, keys, p);
  }

  lemma AdmissibleMore(standing: seq<Pipe>, ps: seq<Pipe>, p: Pipe)
    ensures Admissible(standing, ps + [p]) <==>
            Admissible(standing, ps) && forall q :: q in standing + ps ==> !Alike(p, q)
  {
    var all: seq<Pipe> := ps + [p];
    if Admissible(standing, all) {
      assert all[|ps|] == p;
      assert forall q :: q in ps ==> q in all;
      forall i, j | 0 <= i < j < |ps| ensures !Alike(ps[i], ps[j]) {
        assert all[i] == ps[i] && all[j] == ps[j];
      }
      forall q | q in standing + ps ensures !Alike(p, q) {
        if q in ps {
          var i :| 0 <= i < |ps| && ps[i] == q;
          assert all[i] == q && !Alike(all[i], all[|ps|]);
        }
      }
    }
    if Admissible(standing, ps) && forall q :: q in standing + ps ==> !Alike(p, q) {
      forall i: nat, j: nat | i < j < |all| ensures !Alike(all[i], all[j]) {
        if j == |ps| { assert all[i] in standing + ps; }
      }
    }
  }

  lemma AdmissiblePrefix(standing: seq<Pipe>, ps: seq<Pipe>, n: nat)
    requires n <= |ps| && Admissible(standing, ps)
    ensures Admissible(standing, ps[..n])
  {
  }

  /** `_admit`: all of a file's pipelines, unless one collides. */
  method Admit(ps: seq<Pipe>, names: map<string, Pipe>, keys: map<W.Key, Pipe>, ghost standing: seq<Pipe>)
    returns (reason: Option<Reason>, names': map<string, Pipe>, keys': map<W.Key, Pipe>)
    requires Tables(standing, names, keys)
    ensures reason.None? <==> Admissible(standing, ps)
    ensures reason.None? ==> Tables(standing + ps, names', keys')
    ensures reason.Some? ==>
      && names' == names && keys' == keys && reason.value.Collides?
      && reason.value.pipe in ps && reason.value.other in standing + ps && Alike(reason.value.pipe, reason.value.other)
  {
    hide *;
    names', keys' := names, keys;
    NothingUp(standing, ps);
    for i := 0 to |ps|
      invariant Tables(standing + ps[..i], names', keys') && Admissible(standing, ps[..i])
    {
      CollisionIff(standing + ps[..i], names', keys', ps[i]);
      AdmissibleUpTo(standing, ps, i);
      var other := Collision(ps[i], names', keys');
      if other.Some? {
        assert other.value in standing + ps;
        return Some(Collides(ps[i], other.value)), names, keys;
      }
      BothTablesMore(standing + ps[..i], names', keys', ps[i]);
      names', keys' := names'[ps[i].name := ps[i]], keys'[ps[i].key := ps[i]];
    }
    assert ps[..|ps|] == ps;
    reason := None;
  }

  lemma NothingUp(standing: seq<Pipe>, ps: seq<Pipe>)
    ensures standing + ps[..0] == standing && Admissible(standing, ps[..0])
  {
  }

  lemma AdmissibleUpTo(standing: seq<Pipe>, ps: seq<Pipe>, i: nat)
    requires i < |ps| && Admissible(standing, ps[..i])
    ensures standing + ps[..i + 1] == standing + ps[..i] + [ps[i]]
    ensures forall q :: q in standing + ps[..i] ==> q in standing + ps
    ensures Admissible(standing, ps[..i + 1]) <==> !exists q :: q in standing + ps[..i] && Alike(ps[i], q)
    ensures Admissible(standing, ps) ==> Admissible(standing, ps[..i + 1])
  {
    hide Alike;
    assert ps[..i + 1] == ps[..i] + [ps[i]];
    AdmissibleMore(standing, ps[..i], ps[i]);
    if Admissible(standing, ps) { AdmissiblePrefix(standing, ps, i + 1); }
  }

  /** Two pipelines not both legacy share neither name nor key. */
  ghost predicate NoClash(ps: seq<Pipe>) {
    forall p, q :: p in ps && q in ps && p.id != q.id && !(p.origin == LEGACY && q.origin == LEGACY) ==> !Alike(p, q)
  }

  lemma NoClashMore(standing: seq<Pipe>, ps: seq<Pipe>)
    requires NoClash(standing) && Admissible(standing, ps)
    ensures NoClash(standing + ps)
  {
    forall p, q | p in standing + ps && q in standing + ps && p.id != q.id && !(p.origin == LEGACY && q.origin == LEGACY)
      ensures !Alike(p, q)
    {
      if p in ps && q in ps {
        var i, j :| 0 <= i < |ps| && 0 <= j < |ps| && ps[i] == p && ps[j] == q;
        assert i < j || j < i;
      }
    }
  }

  // ---- one file, built and admitted ------------------------------------------------------------------

  /** One attempt at one file: built whole and admitted, or undone. `tried`: the
      slots that were up for admission. */
  method TryFile(pool: Pool, works: Works, es: seq<Entry>, origin: string, names: map<string, Pipe>,
                 keys: map<W.Key, Pipe>, ghost standing: seq<Pipe>)
    returns (slots: seq<Slot>, added: seq<Pipe>, reason: Option<Reason>, names': map<string, Pipe>,
             keys': map<W.Key, Pipe>, ghost taken: seq<Slot>, ghost made: seq<Slot>, ghost tried: seq<Slot>)
    requires Tables(standing, names, keys)
    modifies pool, works
    ensures old(works.nextId) <= works.nextId
    ensures reason.None? ==>
      && slots == tried && Fits(slots, origin, es) && Split(slots, taken, made) && Split(old(pool.free), pool.free, taken)
      && Tables(standing + PipesOf(slots), names', keys') && Admissible(standing, PipesOf(slots))
      && added == PipesOf(made) && Made(made, old(works.nextId), works.nextId)
    ensures reason.Some? ==>
      && slots == [] && taken == [] && made == [] && added == [] && names' == names && keys' == keys
      && Split(old(pool.free), pool.free, [])
    ensures Accounted(old(works.nextId), works.nextId, old(works.closings), works.closings, old(works.built), works.built,
                      added)
    ensures Reusable(old(pool.free), origin, es) ==>
      && made == [] && Fits(tried, origin, es) && multiset(tried) <= multiset(old(pool.free))
      && (reason.Some? ==> !Admissible(standing, PipesOf(tried)))
  {
    hide Tables, Admissible, Fits, Split, Accounted, Made, Reusable, PipesOf, SourcesOf;
    var taken0, failed, added0;
    ghost var made0;
    slots, taken0, added0, failed, made0 := BuildFile(pool, works, es, origin);
    ghost var reusable := Reusable(old(pool.free), origin, es);
    tried, taken, made, added := slots, taken0, made0, added0;
    if failed.Some? {
      return [], [], Some(FailedToBuild(failed.value)), names, keys, [], [], tried;
    }
    if reusable { FromThePool(slots, taken, old(pool.free), pool.free); }
    reason, names', keys' := Admit(PipesOf(slots), names, keys, standing);
    if reason.Some? {
      ghost var mid, c, b, before := works.nextId, works.closings, works.built, pool.free;
      works.CloseQuietly(added0);
      pool.GiveBack(taken0);
      SplitBack(old(pool.free), before, taken0);
      Discarded(made0, old(works.nextId), works.nextId, old(works.closings), works.closings, old(works.built), works.built);
      return [], [], reason, names, keys, [], [], tried;
    }
  }

  lemma FromThePool(slots: seq<Slot>, taken: seq<Slot>, free0: seq<Slot>, free: seq<Slot>)
    requires Split(slots, taken, []) && Split(free0, free, taken)
    ensures multiset(slots) <= multiset(free0)
  {
  }

  lemma Discarded(made: seq<Slot>, lo: nat, hi: nat, c0: seq<nat>, c1: seq<nat>, b0: set<Pipe>, b1: set<Pipe>)
    requires Accounted(lo, hi, c0, c0, b0, b1, PipesOf(made)) && c1 == c0 + SourcesOf(PipesOf(made))
    ensures Accounted(lo, hi, c0, c1, b0, b1, [])
  {
    hide PipesOf;
    assert c1[|c0|..] == SourcesOf(PipesOf(made)) && c0[|c0|..] == [];
    forall n | n in SourcesOf(PipesOf(made)) ensures lo <= n < hi {
      var p :| p in PipesOf(made) && p.source == n;
      assert n in Holds(p);
    }
    hide SourcesOf;
  }

  // ---- the layout's entries ---------------------------------------------------------------------------

  function EntriesOf(entries: seq<Filed>, origin: string): seq<Entry> {
    if entries == [] then []
    else
      EntriesOf(entries[..|entries| - 1], origin)
      + if entries[|entries| - 1].origin == origin then [entries[|entries| - 1].entry] else []
  }

  /** Generic entries, or builders, in order. */
  function Kind(es: seq<Entry>, builders: bool): seq<Entry> {
    if es == [] then []
    else Kind(es[..|es| - 1], builders) + if (es[|es| - 1].builder != "") == builders then [es[|es| - 1]] else []
  }

  /** The order legacy entries build in: generic ones, then builders. */
  function LegacyOrder(entries: seq<Filed>): seq<Entry> {
    Kind(EntriesOf(entries, LEGACY), false) + Kind(EntriesOf(entries, LEGACY), true)
  }

  /** The pipeline files that hold entries, with their entries. */
  function ByFile(entries: seq<Filed>): (m: map<string, seq<Entry>>)
    ensures forall o :: o in m ==> o != LEGACY && m[o] == EntriesOf(entries, o)
  {
    map o | o in (set e | e in entries :: e.origin) - {LEGACY} :: EntriesOf(entries, o)
  }

  /** `_build_legacy`: a builder that fails is skipped; so is a generic entry, but
      at the start, where it raises. */
  method BuildLegacy(pool: Pool, works: Works, es: seq<Entry>, strict: bool)
    returns (slots: seq<Slot>, added: seq<Pipe>, raised: bool, ghost taken: seq<Slot>, ghost made: seq<Slot>)
    modifies pool, works
    ensures raised ==> strict && added == []
    ensures !raised ==>
      && Fits(slots, LEGACY, es) && Split(slots, taken, made) && Split(old(pool.free), pool.free, taken)
      && added == PipesOf(made) && Made(made, old(works.nextId), works.nextId) && works.closings == old(works.closings)
    ensures Accounted(old(works.nextId), works.nextId, old(works.closings), works.closings, old(works.built), works.built,
                      added)
    ensures Reusable(old(pool.free), LEGACY, es) ==> !raised && made == []
  {
    ghost var lo, b0 := works.nextId, works.built;
    slots, taken, added, made, raised := [], [], [], [], false;
    for i := 0 to |es|
      invariant lo <= works.nextId && works.closings == old(works.closings)
      invariant Fits(slots, LEGACY, es[..i]) && Split(slots, taken, made) && Split(old(pool.free), pool.free, taken)
      invariant added == PipesOf(made) && Made(made, lo, works.nextId)
      invariant b0 <= works.built && forall p :: p in works.built ==> p in b0 || p in added
      invariant Reusable(old(pool.free), LEGACY, es) ==> made == []
    {
      hide Count, CountEntries, Unique, PipesOf, MayBuild, MadeIn, Distinct, Split, Reusable, Fits, Made, SourcesOf, Accounted;
      if made == [] && Reusable(old(pool.free), LEGACY, es) {
        AllTaken(slots, taken, old(pool.free), pool.free);
        NextIsFree(old(pool.free), pool.free, slots, LEGACY, es, i);
      }
      ghost var before := pool.free;
      var slot := pool.Take(LEGACY, NamingIndex(es[i], i), es[i]);
      if slot.Some? {
        SplitMore(slots, taken, made, [slot.value]);
        SplitThen(old(pool.free), before, taken, pool.free, [slot.value]);
        FitsMore(slots, slot.value, LEGACY, es, i);
        taken := taken + [slot.value];
        slots := slots + [slot.value];
      } else {
        ghost var mid := works.nextId;
        var pipes := works.BuildOne(es[i], LEGACY, i);
        if pipes.None? && strict && es[i].builder == "" {
          works.CloseQuietly(added);
          AllClosed(made, lo, mid, works.nextId, old(works.closings), works.closings, b0, works.built);
          return [], [], true, [], [];
        }
        var s := Slot(LEGACY, NamingIndex(es[i], i), es[i], if pipes.Some? then pipes.value else []);
        BuiltSlot(s, i, mid, works.nextId);
        MadeMore(made, s, lo, mid, works.nextId);
        SplitMore(slots, taken, made, [s]);
        FitsMore(slots, s, LEGACY, es, i);
        added := added + s.pipes;
        slots := slots + [s];
        made := made + [s];
      }
    }
    assert es[..|es|] == es;
    NoneClosed(made, lo, works.nextId, works.closings, b0, works.built);
  }

  // ---- a build ---------------------------------------------------------------------------------------

  /** What every build is: no object twice, no clash but among legacy pipelines,
      each file's slots its accepted entries, whole. */
  ghost predicate Whole(b: Build, hi: nat) {
    && UniqueSlots(b.slots) && (forall s :: s in b.slots ==> MadeIn(s, 0, hi)) && NoClash(PipesOf(b.slots))
    && LEGACY !in b.good && (forall s :: s in b.slots ==> s.origin == LEGACY || s.origin in b.good)
    && forall o :: o in b.good ==> Fits(SlotsOf(b.slots, o), o, b.good[o])
  }

  /** Nothing in the build was closed. */
  ghost predicate Open(b: Build, closings: seq<nat>) {
    forall p, n :: p in PipesOf(b.slots) && n in Holds(p) ==> n !in closings
  }

  /** What `_assemble` has so far. */
  datatype Standing = Standing(names: map<string, Pipe>, keys: map<W.Key, Pipe>, accepted: map<string, seq<Slot>>,
                               good: map<string, seq<Entry>>, refused: set<string>, added: seq<Pipe>)

  /** The slots standing, and where each came from: the previous build or this one. */
  datatype Trail = Trail(sofar: seq<Slot>, reused: seq<Slot>, made: seq<Slot>)

  ghost predicate Book(prev: Build, free: seq<Slot>, t: Trail, lo: nat, hi: nat) {
    && Split(prev.slots, free, t.reused) && Split(t.sofar, t.reused, t.made) && Made(t.made, lo, hi)
    && NoClash(PipesOf(t.sofar))
  }

  ghost predicate Placed(legacy: seq<Slot>, st: Standing, t: Trail) {
    && LEGACY !in st.accepted && st.accepted.Keys == st.good.Keys && SlotsOf(t.sofar, LEGACY) == legacy
    && (forall s :: s in t.sofar ==> s.origin == LEGACY || s.origin in st.accepted)
    && (forall o :: o in st.accepted ==> st.accepted[o] == SlotsOf(t.sofar, o) && Fits(st.accepted[o], o, st.good[o]))
    && Tables(PipesOf(t.sofar), st.names, st.keys) && st.added == PipesOf(t.made)
  }

  /** The very pipelines this file had. */
  ghost predicate SamePipes(prev: Build, slots: seq<Slot>, o: string) {
    multiset(slots) == multiset(SlotsOf(prev.slots, o))
  }

  ghost predicate KeptWhole(prev: Build, st: Standing, o: string) {
    && o in prev.good && o in st.good && st.good[o] == prev.good[o]
    && o in st.accepted && SamePipes(prev, st.accepted[o], o)
  }

  /** A standing file runs its present entries or, refused, just what it had. */
  ghost predicate Provenance(prev: Build, files: map<string, seq<Entry>>, bad: set<string>, st: Standing) {
    forall o :: o in st.good ==>
      if o in st.refused then KeptWhole(prev, st, o) else o in files && o !in bad && st.good[o] == files[o]
  }

  lemma SplitJoin(all: seq<Slot>, a: seq<Slot>, b: seq<Slot>, all': seq<Slot>, a': seq<Slot>, b': seq<Slot>)
    requires Split(all, a, b) && Split(all', a', b')
    ensures Split(all + all', a + a', b + b')
  {
  }

  lemma MadeJoin(a: seq<Slot>, b: seq<Slot>, lo: nat, mid: nat, hi: nat)
    requires Made(a, lo, mid) && Made(b, mid, hi)
    ensures Made(a + b, lo, hi)
  {
    hide Unique;
    assert multiset(a + b) == multiset(a) + multiset(b);
    UniqueUnion(multiset(a), multiset(b), lo, mid, hi);
  }

  lemma BookMore(prev: Build, free: seq<Slot>, t: Trail, lo: nat, mid: nat, free': seq<Slot>, slots: seq<Slot>,
                 taken: seq<Slot>, made: seq<Slot>, hi: nat)
    requires Book(prev, free, t, lo, mid) && Split(free, free', taken) && Split(slots, taken, made)
    requires Made(made, mid, hi) && Admissible(PipesOf(t.sofar), PipesOf(slots))
    ensures Book(prev, free', Trail(t.sofar + slots, t.reused + taken, t.made + made), lo, hi)
  {
    hide Split, Made, NoClash, Admissible, PipesOf;
    SplitThen(prev.slots, free, t.reused, free', taken);
    SplitJoin(t.sofar, t.reused, t.made, slots, taken, made);
    MadeJoin(t.made, made, lo, mid, hi);
    NoClashMore(PipesOf(t.sofar), PipesOf(slots));
    PipesConcat(t.sofar, slots);
  }

  lemma {:induction false} OnlyConcat(a: seq<Slot>, b: seq<Slot>, origins: set<string>)
    ensures Only(a + b, origins) == Only(a, origins) + Only(b, origins)
  {
    if b == [] {
      assert a + b == a;
    } else {
      assert (a + b)[..|a + b| - 1] == a + b[..|b| - 1];
      OnlyConcat(a, b[..|b| - 1], origins);
    }
  }

  lemma OnlyLast(front: seq<Slot>, s: Slot, origins: set<string>)
    ensures Only(front + [s], origins) == Only(front, origins) + if s.origin in origins then [s] else []
  {
    assert (front + [s])[..|front|] == front;
  }

  lemma {:induction false} OnlyAll(a: seq<Slot>, origins: set<string>)
    requires forall s :: s in a ==> s.origin in origins
    ensures Only(a, origins) == a
  {
    if a != [] {
      hide Only;
      var front, s := a[..|a| - 1], a[|a| - 1];
      assert a == front + [s];
      OnlyAll(front, origins);
      OnlyLast(front, s, origins);
    }
  }

  lemma {:induction false} OnlyNone(a: seq<Slot>, origins: set<string>)
    requires forall s :: s in a ==> s.origin !in origins
    ensures Only(a, origins) == []
  {
    if a != [] {
      OnlyNone(a[..|a| - 1], origins);
      assert a[|a| - 1] in a;
    }
  }

  lemma FitsOrigin(slots: seq<Slot>, o: string, es: seq<Entry>)
    requires Fits(slots, o, es)
    ensures forall s :: s in slots ==> s.origin == o
  {
  }

  lemma PlacedMore(legacy: seq<Slot>, st: Standing, t: Trail, o: string, es: seq<Entry>, slots: seq<Slot>,
                   taken: seq<Slot>, made: seq<Slot>, names: map<string, Pipe>, keys: map<W.Key, Pipe>)
    requires Placed(legacy, st, t) && o != LEGACY && o !in st.accepted && Fits(slots, o, es)
    requires Tables(PipesOf(t.sofar) + PipesOf(slots), names, keys)
    ensures Placed(legacy, st.(names := names, keys := keys, accepted := st.accepted[o := slots], good := st.good[o := es],
                               added := st.added + PipesOf(made)),
                   Trail(t.sofar + slots, t.reused + taken, t.made + made))
  {
    hide Fits, Tables, PipesOf, Only;
    PipesConcat(t.sofar, slots);
    PipesConcat(t.made, made);
    FitsOrigin(slots, o, es);
    forall x ensures SlotsOf(t.sofar + slots, x) == SlotsOf(t.sofar, x) + if x == o then slots else [] {
      OnlyConcat(t.sofar, slots, {x});
      if x == o { OnlyAll(slots, {x}); } else { OnlyNone(slots, {x}); }
    }
    assert SlotsOf(t.sofar, o) == [] by { OnlyNone(t.sofar, {o}); }
  }

  /** What a file last built is all in the pool until its turn. */
  lemma LastGoodReusable(prev: Build, free: seq<Slot>, reused: seq<Slot>, o: string, hi: nat)
    requires Whole(prev, hi) && o in prev.good && Split(prev.slots, free, reused)
    requires forall s :: s in reused ==> s.origin != o
    ensures Reusable(free, o, prev.good[o])
  {
    ReusableOrigin(prev.slots, free, reused, o, prev.good[o]);
  }

  lemma ReusableOrigin(all: seq<Slot>, free: seq<Slot>, reused: seq<Slot>, o: string, es: seq<Entry>)
    requires Fits(SlotsOf(all, o), o, es) && Split(all, free, reused) && forall s :: s in reused ==> s.origin != o
    ensures Reusable(free, o, es) && forall tag :: Count(free, o, tag) == CountEntries(es, tag)
  {
    forall tag ensures Count(free, o, tag) == CountEntries(es, tag) {
      CountOnly(all, o, tag);
      FitsCount(SlotsOf(all, o), o, es, tag);
      assert multiset(free + reused) == multiset(all);
      CountOfPermutation(free + reused, all, o, tag);
      CountConcat(free, reused, o, tag);
      CountPositive(reused, o, tag);
    }
  }

  lemma {:induction false} OnlyCounts(slots: seq<Slot>, o: string, s: Slot)
    ensures multiset(SlotsOf(slots, o))[s] == if s.origin == o then multiset(slots)[s] else 0
  {
    if slots != [] {
      OnlyCounts(slots[..|slots| - 1], o, s);
      assert slots == slots[..|slots| - 1] + [slots[|slots| - 1]];
    }
  }

  lemma NoneLeft(free: seq<Slot>, free': seq<Slot>, slots: seq<Slot>, o: string, es: seq<Entry>, s: Slot)
    requires Fits(slots, o, es) && Split(free, free', slots) && s.origin == o
    requires forall tag :: Count(free, o, tag) == CountEntries(es, tag)
    ensures s !in free'
  {
    hide Fits;
    var tag := (s.index, s.entry);
    assert multiset(free' + slots) == multiset(free);
    CountOfPermutation(free' + slots, free, o, tag);
    CountConcat(free', slots, o, tag);
    FitsCount(slots, o, es, tag);
    CountPositive(free', o, tag);
    assert Bears(s, o, tag);
  }

  /** A file whose every entry came from the pool has all it had. */
  lemma AllReused(prev: Build, free: seq<Slot>, reused: seq<Slot>, free': seq<Slot>, slots: seq<Slot>, o: string, hi: nat)
    requires Whole(prev, hi) && o in prev.good && Split(prev.slots, free, reused) && Split(free, free', slots)
    requires (forall s :: s in reused ==> s.origin != o) && Fits(slots, o, prev.good[o])
    ensures SamePipes(prev, slots, o)
  {
    OriginReused(prev.slots, free, reused, free', slots, o, prev.good[o]);
  }

  lemma OriginReused(all: seq<Slot>, free: seq<Slot>, reused: seq<Slot>, free': seq<Slot>, slots: seq<Slot>, o: string,
                     es: seq<Entry>)
    requires Fits(SlotsOf(all, o), o, es) && Split(all, free, reused) && Split(free, free', slots)
    requires (forall s :: s in reused ==> s.origin != o) && Fits(slots, o, es)
    ensures multiset(slots) == multiset(SlotsOf(all, o))
  {
    ReusableOrigin(all, free, reused, o, es);
    FitsOrigin(slots, o, es);
    forall s ensures multiset(slots)[s] == multiset(SlotsOf(all, o))[s] {
      hide Fits, Reusable, Count, CountEntries, Only;
      OnlyCounts(all, o, s);
      if s.origin == o {
        NoneLeft(free, free', slots, o, es, s);
        assert s !in multiset(free') && s !in multiset(reused);
      } else {
        assert s !in multiset(slots);
      }
    }
  }

  lemma PipeFrom(all: seq<Slot>, sub: seq<Slot>, p: Pipe, hi: nat) returns (s: Slot)
    requires p in PipesOf(sub) && (forall s :: s in sub ==> s in all) && forall s :: s in all ==> MadeIn(s, 0, hi)
    ensures s in sub && p in s.pipes && p.origin == s.origin && p in PipesOf(all)
  {
    s :| s in sub && p in s.pipes;
    assert MadeIn(s, 0, hi) && PipeMadeIn(p, s.origin, 0, hi);
  }

  lemma Apart(prev: Build, sofar: seq<Slot>, tried: seq<Slot>, o: string, hi: nat, p: Pipe, q: Pipe)
    requires Whole(prev, hi) && o != LEGACY && p in PipesOf(tried) && q in PipesOf(sofar)
    requires (forall s :: s in sofar ==> s in prev.slots && s.origin != o)
    requires (forall s :: s in tried ==> s in prev.slots && s.origin == o)
    ensures p.origin == o && p in PipesOf(prev.slots) && q in PipesOf(prev.slots) && p.id != q.id && !Alike(p, q)
  {
    hide Unique, MadeIn, PipesOf, Fits, Alike;
    var _ := PipeFrom(prev.slots, tried, p, hi);
    var _ := PipeFrom(prev.slots, sofar, q, hi);
    DifferentPipes(prev.slots, hi, p, q);
  }

  lemma ApartWithin(prev: Build, tried: seq<Slot>, o: string, hi: nat)
    requires Whole(prev, hi) && o != LEGACY && Distinct(PipesOf(tried))
    requires (forall s :: s in tried ==> s in prev.slots && s.origin == o)
    ensures forall i: nat, j: nat :: i < j < |PipesOf(tried)| ==> !Alike(PipesOf(tried)[i], PipesOf(tried)[j])
  {
    hide Unique, MadeIn, PipesOf, Fits, Alike;
    var ps: seq<Pipe> := PipesOf(tried);
    forall i: nat, j: nat | i < j < |ps| ensures !Alike(ps[i], ps[j]) {
      var _ := PipeFrom(prev.slots, tried, ps[i], hi);
      var _ := PipeFrom(prev.slots, tried, ps[j], hi);
    }
  }

  /** While everything stands on reused slots, a reused file cannot collide. */
  lemma ReusedAdmitted(prev: Build, sofar: seq<Slot>, tried: seq<Slot>, o: string, hi: nat)
    requires Whole(prev, hi) && o != LEGACY
    requires (forall s :: s in sofar ==> s in prev.slots && s.origin != o)
    requires multiset(tried) <= multiset(prev.slots) && forall s :: s in tried ==> s.origin == o
    ensures Admissible(PipesOf(sofar), PipesOf(tried))
  {
    UniqueSub(multiset(tried), multiset(prev.slots));
    UniquePlaces(tried);
    forall s | s in tried ensures s in prev.slots { assert s in multiset(tried); }
    hide Unique, MadeIn, PipesOf, Alike, UniqueSlots, Whole, Distinct;
    ApartWithin(prev, tried, o, hi);
    forall p, q | p in PipesOf(tried) && q in PipesOf(sofar) ensures !Alike(p, q) {
      Apart(prev, sofar, tried, o, hi, p, q);
    }
  }

  lemma DifferentPipes(slots: seq<Slot>, hi: nat, p: Pipe, q: Pipe)
    requires UniqueSlots(slots) && forall s :: s in slots ==> MadeIn(s, 0, hi)
    requires p in PipesOf(slots) && q in PipesOf(slots) && p.origin != q.origin
    ensures p.id != q.id
  {
    var s :| s in slots && p in s.pipes;
    var t :| t in slots && q in t.pipes;
    assert s in multiset(slots) && t in multiset(slots);
    assert MadeIn(s, 0, hi) && MadeIn(t, 0, hi) && PipeMadeIn(p, s.origin, 0, hi) && PipeMadeIn(q, t.origin, 0, hi);
    hide Unique;
    if p.id == q.id { SameSlot(multiset(slots), s, t, p, q); }
  }

  // ---- one file's turn ----------------------------------------------------------------------------------

  lemma BookSame(prev: Build, free: seq<Slot>, t: Trail, lo: nat, mid: nat, free': seq<Slot>, hi: nat)
    requires Book(prev, free, t, lo, mid) && Split(free, free', []) && mid <= hi
    ensures Book(prev, free', t, lo, hi)
  {
    hide Unique, NoClash;
    forall s | s in t.made ensures MadeIn(s, lo, hi) {
      assert MadeIn(s, lo, mid);
      forall p | p in s.pipes ensures PipeMadeIn(p, s.origin, lo, hi) { assert PipeMadeIn(p, s.origin, lo, mid); }
    }
  }

  /** Nothing in the pool's past bears an origin that has not stood yet. */
  lemma NotYetTaken(prev: Build, free: seq<Slot>, t: Trail, lo: nat, hi: nat, legacy: seq<Slot>, st: Standing, o: string)
    requires Book(prev, free, t, lo, hi) && Placed(legacy, st, t) && o != LEGACY && o !in st.accepted
    ensures forall s :: s in t.reused || s in t.sofar ==> s.origin != o
    ensures t.made == [] ==> forall s :: s in t.sofar ==> s in prev.slots
  {
    hide Fits, Tables, NoClash, Unique;
    forall s | s in t.reused ensures s in t.sofar { assert s in multiset(t.sofar); }
    if t.made == [] {
      forall s | s in t.sofar ensures s in prev.slots {
        assert s in multiset(t.sofar) && multiset(t.sofar) == multiset(t.reused);
        assert s in multiset(prev.slots);
      }
    }
  }

  /** One try at one list of entries for file `o`. */
  method TryAs(pool: Pool, works: Works, es: seq<Entry>, o: string, st: Standing, ghost prev: Build, ghost t: Trail,
               ghost lo: nat, ghost legacy: seq<Slot>, ghost c0: seq<nat>, ghost b0: set<Pipe>)
    returns (st': Standing, reason: Option<Reason>, ghost t': Trail)
    requires Whole(prev, lo) && Book(prev, pool.free, t, lo, works.nextId) && Placed(legacy, st, t)
    requires o != LEGACY && o !in st.accepted
    requires Accounted(lo, works.nextId, c0, works.closings, b0, works.built, PipesOf(t.made))
    modifies pool, works
    ensures Book(prev, pool.free, t', lo, works.nextId) && Placed(legacy, st', t')
    ensures Accounted(lo, works.nextId, c0, works.closings, b0, works.built, PipesOf(t'.made))
    ensures st'.refused == st.refused
    ensures reason.Some? ==> st' == st && t' == t
    ensures reason.None? ==> st'.good == st.good[o := es] && o in st'.accepted && st'.accepted == st.accepted[o := st'.accepted[o]]
    ensures o in prev.good && es == prev.good[o] ==>
      && t'.made == t.made && (reason.None? ==> SamePipes(prev, st'.accepted[o], o))
      && (t.made == [] ==> reason.None?)
  {
    hide Split, Tables, Admissible, Fits, Accounted, Made, Reusable, PipesOf, SourcesOf, NoClash, UniqueSlots, Only;
    ghost var free0, mid, c, b := pool.free, works.nextId, works.closings, works.built;
    var slots, added, names, keys;
    ghost var taken, made, tried;
    NotYetTaken(prev, free0, t, lo, mid, legacy, st, o);
    ghost var again := o in prev.good && es == prev.good[o];
    if again { LastGoodReusable(prev, free0, t.reused, o, lo); }
    slots, added, reason, names, keys, taken, made, tried :=
      TryFile(pool, works, es, o, st.names, st.keys, PipesOf(t.sofar));
    AccountedThen(lo, mid, works.nextId, c0, c, works.closings, b0, b, works.built, PipesOf(t.made), added);
    if reason.Some? {
      st', t' := st, t;
      BookSame(prev, free0, t, lo, mid, pool.free, works.nextId);
      assert PipesOf(t.made) + [] == PipesOf(t.made);
      if again && t.made == [] {
        FitsOrigin(tried, o, es);
        FreeOfPrev(prev, free0, t, lo, mid, tried);
        ReusedAdmitted(prev, t.sofar, tried, o, lo);
      }
    } else {
      st' := st.(names := names, keys := keys, accepted := st.accepted[o := slots], good := st.good[o := es],
                 added := st.added + added);
      t' := Trail(t.sofar + slots, t.reused + taken, t.made + made);
      BookMore(prev, free0, t, lo, mid, pool.free, slots, taken, made, works.nextId);
      PlacedMore(legacy, st, t, o, es, slots, taken, made, names, keys);
      PipesConcat(t.made, made);
      if again {
        AllTaken(slots, taken, free0, pool.free);
        AllReused(prev, free0, t.reused, pool.free, slots, o, lo);
      }
    }
  }

  lemma FreeOfPrev(prev: Build, free: seq<Slot>, t: Trail, lo: nat, hi: nat, tried: seq<Slot>)
    requires Book(prev, free, t, lo, hi) && multiset(tried) <= multiset(free)
    ensures multiset(tried) <= multiset(prev.slots)
  {
  }

  /** A file's turn: its present entries, else what it last built, else nothing. */
  method TakeTurn(pool: Pool, works: Works, files: map<string, seq<Entry>>, bad: set<string>, prev: Build, o: string,
                  st: Standing, ghost t: Trail, ghost lo: nat, ghost legacy: seq<Slot>, ghost c0: seq<nat>, ghost b0: set<Pipe>)
    returns (st': Standing, ghost t': Trail)
    requires Whole(prev, lo) && Book(prev, pool.free, t, lo, works.nextId) && Placed(legacy, st, t)
    requires Provenance(prev, files, bad, st) && (o in files || o in bad)
    requires o != LEGACY && o !in st.accepted && o !in st.refused
    requires Accounted(lo, works.nextId, c0, works.closings, b0, works.built, PipesOf(t.made))
    modifies pool, works
    ensures Book(prev, pool.free, t', lo, works.nextId) && Placed(legacy, st', t')
    ensures Accounted(lo, works.nextId, c0, works.closings, b0, works.built, PipesOf(t'.made))
    ensures Provenance(prev, files, bad, st')
    ensures st'.refused == st.refused || st'.refused == st.refused + {o}
    ensures o in st'.refused || o in st'.good
    ensures forall x :: x in st.accepted ==> x in st'.accepted && st'.accepted[x] == st.accepted[x]
    ensures forall x :: x in st.good ==> x in st'.good && st'.good[x] == st.good[x]
    ensures forall x :: x in st'.accepted ==> x in st.accepted || x == o
    ensures o in prev.good && o in files && files[o] == prev.good[o] && t.made == [] ==>
      t'.made == [] && KeptWhole(prev, st', o) && (o !in bad ==> o !in st'.refused)
  {
    hide Book, Placed, Accounted, PipesOf, SamePipes, Whole;
    PlacedDomains(legacy, st, t);
    st', t' := st, t;
    if o !in bad {
      var reason;
      st', reason, t' := TryAs(pool, works, files[o], o, st, prev, t, lo, legacy, c0, b0);
      PlacedDomains(legacy, st', t');
      if reason.None? { return; }
    }
    st' := st'.(refused := st'.refused + {o});
    PlacedRefused(legacy, st, t, o);
    if o in prev.good {
      var reason;
      st', reason, t' := TryAs(pool, works, prev.good[o], o, st', prev, t, lo, legacy, c0, b0);
      PlacedDomains(legacy, st', t');
    }
  }

  lemma PlacedDomains(legacy: seq<Slot>, st: Standing, t: Trail)
    requires Placed(legacy, st, t)
    ensures LEGACY !in st.accepted && st.accepted.Keys == st.good.Keys
  {
    hide Fits, Tables;
  }

  lemma PlacedRefused(legacy: seq<Slot>, st: Standing, t: Trail, o: string)
    requires Placed(legacy, st, t)
    ensures Placed(legacy, st.(refused := st.refused + {o}), t)
  {
    hide Fits, Tables;
  }

  // ---- the file order ------------------------------------------------------------------------------------

  ghost predicate Ordered(os: seq<string>) {
    forall i, j :: 0 <= i < j < |os| ==> Less(os[i], os[j])
  }

  method Least(s: set<string>) returns (least: string)
    requires s != {}
    ensures least in s && forall x :: x in s && x != least ==> Less(least, x)
  {
    least :| least in s;
    var rest := s - {least};
    while rest != {}
      invariant least in s && rest <= s - {least}
      invariant forall x :: x in s - rest && x != least ==> Less(least, x)
      decreases |rest|
    {
      var x :| x in rest;
      LessIsStrictTotal(x, least);
      if Less(x, least) {
        forall y | y in s - (rest - {x}) && y != x ensures Less(x, y) {
          if y != least { LessIsTransitive(x, least, y); }
        }
        least := x;
      }
      rest := rest - {x};
    }
  }

  /** `sorted`. */
  method Sort(s: set<string>) returns (os: seq<string>)
    ensures Ordered(os) && forall x :: x in os <==> x in s
  {
    os := [];
    var rest := s;
    while rest != {}
      invariant Ordered(os) && rest <= s && (forall x :: x in os <==> x in s - rest)
      invariant forall x, y :: x in os && y in rest ==> Less(x, y)
      decreases |rest|
    {
      var x := Least(rest);
      os := os + [x];
      rest := rest - {x};
    }
  }

  lemma OrderedDistinct(os: seq<string>, i: nat, j: nat)
    requires Ordered(os) && i < j < |os|
    ensures os[i] != os[j]
  {
    LessIsStrictTotal(os[i], os[j]);
  }

  /** The members of a sequence that lie in a set, in order. */
  function Where(os: seq<string>, keep: set<string>): (r: seq<string>)
    ensures forall x :: x in r <==> x in os && x in keep
    ensures |r| <= |os|
  {
    if os == [] then []
    else
      assert os == os[..|os| - 1] + [os[|os| - 1]];
      Where(os[..|os| - 1], keep) + if os[|os| - 1] in keep then [os[|os| - 1]] else []
  }

  ghost predicate NoRepeat(os: seq<string>) {
    forall i, j :: 0 <= i < j < |os| ==> os[i] != os[j]
  }

  lemma {:induction false} WhereNoRepeat(os: seq<string>, keep: set<string>)
    requires NoRepeat(os)
    ensures NoRepeat(Where(os, keep))
  {
    if os != [] {
      var front := os[..|os| - 1];
      WhereNoRepeat(front, keep);
      forall x | x in Where(front, keep) ensures x != os[|os| - 1] {
        var i :| 0 <= i < |front| && front[i] == x;
        assert os[i] == x;
      }
    }
  }

  /** Files whose entries match their last good build go first. */
  method TurnOrder(prev: Build, files: map<string, seq<Entry>>, bad: set<string>)
    returns (order: seq<string>, steady: nat)
    ensures NoRepeat(order) && steady <= |order|
    ensures forall o :: o in order <==> o in files || o in bad
    ensures forall i :: 0 <= i < |order| ==> (i < steady <==> Unchanged(prev, files, order[i]))
  {
    var origins := Sort(files.Keys + bad);
    assert NoRepeat(origins) by {
      forall i: nat, j: nat | i < j < |origins| ensures origins[i] != origins[j] { OrderedDistinct(origins, i, j); }
    }
    var same := set o | o in files && Unchanged(prev, files, o);
    var rest := set o | o in origins && o !in same;
    WhereNoRepeat(origins, same);
    WhereNoRepeat(origins, rest);
    order, steady := Where(origins, same) + Where(origins, rest), |Where(origins, same)|;
    hide *;
    JoinOrders(Where(origins, same), Where(origins, rest), same, rest);
    forall i | 0 <= i < |order| ensures i < steady <==> Unchanged(prev, files, order[i]) {
      assert order[i] in origins;
    }
  }

  lemma JoinOrders(a: seq<string>, b: seq<string>, same: set<string>, rest: set<string>)
    requires NoRepeat(a) && NoRepeat(b) && same !! rest
    requires (forall x :: x in a ==> x in same) && forall x :: x in b ==> x in rest
    ensures NoRepeat(a + b)
    ensures forall i :: 0 <= i < |a + b| ==> if i < |a| then (a + b)[i] in same else (a + b)[i] in rest
  {
    forall i: nat, j: nat | i < j < |a + b| ensures (a + b)[i] != (a + b)[j] {
      if i < |a| <= j { assert a[i] in same && b[j - |a|] in rest; }
    }
  }

  predicate Unchanged(prev: Build, files: map<string, seq<Entry>>, o: string) {
    o in files && o in prev.good && prev.good[o] == files[o]
  }

  // ---- the whole assembly -----------------------------------------------------------------------------

  /** The `i`-th pipeline is the first of its name, or of its key. */
  predicate FirstNamed(ps: seq<Pipe>, i: nat)
    requires i < |ps|
  {
    forall j :: 0 <= j < i ==> ps[j].name != ps[i].name
  }

  predicate FirstKeyed(ps: seq<Pipe>, i: nat)
    requires i < |ps|
  {
    forall j :: 0 <= j < i ==> ps[j].key != ps[i].key
  }

  ghost predicate FirstOfNames(ps: seq<Pipe>, names: map<string, Pipe>) {
    && (forall n :: n in names ==> exists i :: 0 <= i < |ps| && ps[i].name == n)
    && forall i :: 0 <= i < |ps| ==> ps[i].name in names && (FirstNamed(ps, i) ==> names[ps[i].name] == ps[i])
  }

  ghost predicate FirstOfKeys(ps: seq<Pipe>, keys: map<W.Key, Pipe>) {
    && (forall k :: k in keys ==> exists i :: 0 <= i < |ps| && ps[i].key == k)
    && forall i :: 0 <= i < |ps| ==> ps[i].key in keys && (FirstKeyed(ps, i) ==> keys[ps[i].key] == ps[i])
  }

  lemma FirstOfNamesMore(ps: seq<Pipe>, p: Pipe, names: map<string, Pipe>)
    requires FirstOfNames(ps, names)
    ensures FirstOfNames(ps + [p], SetDefault(names, p.name, p))
  {
    var ps', names' := ps + [p], SetDefault(names, p.name, p);
    assert ps'[|ps|] == p;
    forall n | n in names' ensures exists i :: 0 <= i < |ps'| && ps'[i].name == n {
      if n in names {
        var i :| 0 <= i < |ps| && ps[i].name == n;
        assert ps'[i] == ps[i];
      }
    }
    forall i | 0 <= i < |ps'| ensures ps'[i].name in names' && (FirstNamed(ps', i) ==> names'[ps'[i].name] == ps'[i]) {
      if i < |ps| {
        assert ps'[i] == ps[i] && forall j :: 0 <= j < i ==> ps'[j] == ps[j];
        assert FirstNamed(ps', i) ==> FirstNamed(ps, i);
      } else if p.name in names {
        var k :| 0 <= k < |ps| && ps[k].name == p.name;
        assert ps'[k].name == ps'[i].name;
      }
    }
  }

  lemma FirstOfKeysMore(ps: seq<Pipe>, p: Pipe, keys: map<W.Key, Pipe>)
    requires FirstOfKeys(ps, keys)
    ensures FirstOfKeys(ps + [p], SetDefault(keys, p.key, p))
  {
    var ps', keys' := ps + [p], SetDefault(keys, p.key, p);
    assert ps'[|ps|] == p;
    forall k | k in keys' ensures exists i :: 0 <= i < |ps'| && ps'[i].key == k {
      if k in keys {
        var i :| 0 <= i < |ps| && ps[i].key == k;
        assert ps'[i] == ps[i];
      }
    }
    forall i | 0 <= i < |ps'| ensures ps'[i].key in keys' && (FirstKeyed(ps', i) ==> keys'[ps'[i].key] == ps'[i]) {
      if i < |ps| {
        assert ps'[i] == ps[i] && forall j :: 0 <= j < i ==> ps'[j] == ps[j];
        assert FirstKeyed(ps', i) ==> FirstKeyed(ps, i);
      } else if p.key in keys {
        var k :| 0 <= k < |ps| && ps[k].key == p.key;
        assert ps'[k].key == ps'[i].key;
      }
    }
  }

  /** Each name and key stands for the first legacy pipeline that bears it. */
  method LegacyTables(ps: seq<Pipe>) returns (names: map<string, Pipe>, keys: map<W.Key, Pipe>)
    ensures Tables(ps, names, keys) && FirstOfNames(ps, names) && FirstOfKeys(ps, keys)
  {
    names, keys := map[], map[];
    for i := 0 to |ps|
      invariant NameTable(ps[..i], names) && KeyTable(ps[..i], keys)
      invariant FirstOfNames(ps[..i], names) && FirstOfKeys(ps[..i], keys)
    {
      hide NameTable, KeyTable, SetDefault, FirstOfNames, FirstOfKeys;
      FirstOfNamesMore(ps[..i], ps[i], names);
      FirstOfKeysMore(ps[..i], ps[i], keys);
      NameTableMore(ps[..i], names, ps[i]);
      KeyTableMore(ps[..i], keys, ps[i]);
      Snoc(ps, i);
      names := SetDefault(names, ps[i].name, ps[i]);
      keys := SetDefault(keys, ps[i].key, ps[i]);
    }
    assert ps[..|ps|] == ps;
  }

  lemma Snoc<T>(s: seq<T>, i: nat)
    requires i < |s|
    ensures s[..i + 1] == s[..i] + [s[i]]
  {
  }

  lemma {:induction false} OnlySplit(slots: seq<Slot>, origins: set<string>, o: string)
    requires o !in origins
    ensures multiset(Only(slots, origins + {o})) == multiset(Only(slots, origins)) + multiset(SlotsOf(slots, o))
  {
    if slots != [] {
      OnlySplit(slots[..|slots| - 1], origins, o);
    }
  }

  lemma OnlyOfOnly(slots: seq<Slot>, o: string, x: string)
    ensures SlotsOf(SlotsOf(slots, o), x) == if x == o then SlotsOf(slots, o) else []
  {
    if x == o { OnlyAll(SlotsOf(slots, o), {x}); } else { OnlyNone(SlotsOf(slots, o), {x}); }
  }

  ghost predicate Gathered(slots: seq<Slot>, sofar: seq<Slot>, done: set<string>) {
    && multiset(slots) == multiset(Only(sofar, done))
    && forall o :: SlotsOf(slots, o) == if o in done then SlotsOf(sofar, o) else []
  }

  lemma GatherMore(slots: seq<Slot>, sofar: seq<Slot>, done: set<string>, o: string)
    requires Gathered(slots, sofar, done) && o !in done
    ensures Gathered(slots + SlotsOf(sofar, o), sofar, done + {o})
  {
    hide Only;
    var part := SlotsOf(sofar, o);
    OnlySplit(sofar, done, o);
    assert multiset(slots + part) == multiset(slots) + multiset(part);
    forall x ensures SlotsOf(slots + part, x) == if x in done + {o} then SlotsOf(sofar, x) else [] {
      OnlyConcat(slots, part, {x});
      OnlyOfOnly(sofar, o, x);
    }
  }

  lemma GatherFirst(sofar: seq<Slot>)
    ensures Gathered(SlotsOf(sofar, LEGACY), sofar, {LEGACY})
  {
    hide Only;
    forall o ensures SlotsOf(SlotsOf(sofar, LEGACY), o) == if o == LEGACY then SlotsOf(sofar, o) else [] {
      OnlyOfOnly(sofar, LEGACY, o);
    }
  }

  lemma GatherAll(slots: seq<Slot>, sofar: seq<Slot>, done: set<string>)
    requires Gathered(slots, sofar, done) && forall s :: s in sofar ==> s.origin in done
    ensures multiset(slots) == multiset(sofar) && forall o :: SlotsOf(slots, o) == SlotsOf(sofar, o)
  {
    OnlyAll(sofar, done);
    forall o ensures SlotsOf(slots, o) == SlotsOf(sofar, o) {
      if o !in done { OnlyNone(sofar, {o}); }
    }
  }

  /** Legacy slots first, then each accepted file's, files in name order. */
  method Gather(legacy: seq<Slot>, st: Standing, ghost t: Trail) returns (slots: seq<Slot>)
    requires Placed(legacy, st, t)
    ensures multiset(slots) == multiset(t.sofar)
    ensures forall o :: SlotsOf(slots, o) == SlotsOf(t.sofar, o)
  {
    hide Fits, Tables, Only, PipesOf, Gathered;
    var os := Sort(st.accepted.Keys);
    slots := legacy;
    ghost var done: set<string> := {LEGACY};
    GatherFirst(t.sofar);
    for i := 0 to |os|
      invariant done == {LEGACY} + set x | x in os[..i]
      invariant Gathered(slots, t.sofar, done)
    {
      var o := os[i];
      assert os[..i + 1] == os[..i] + [o];
      assert o !in done by {
        forall j: nat | j < i ensures os[j] != o { OrderedDistinct(os, j, i); }
      }
      GatherMore(slots, t.sofar, done, o);
      slots := slots + st.accepted[o];
      done := done + {o};
    }
    assert os[..|os|] == os;
    GatherAll(slots, t.sofar, done);
  }

  lemma LegacyStands(prev: Build, free: seq<Slot>, slots: seq<Slot>, taken: seq<Slot>, made: seq<Slot>, lo: nat, hi: nat,
                     es: seq<Entry>, names: map<string, Pipe>, keys: map<W.Key, Pipe>)
    requires Whole(prev, lo) && Split(prev.slots, free, taken) && Split(slots, taken, made) && Made(made, lo, hi)
    requires Fits(slots, LEGACY, es) && Tables(PipesOf(slots), names, keys)
    ensures Book(prev, free, Trail(slots, taken, made), lo, hi)
    ensures Placed(slots, Standing(names, keys, map[], map[], {}, PipesOf(made)), Trail(slots, taken, made))
  {
    hide Unique, Tables, Only;
    FitsOrigin(slots, LEGACY, es);
    OnlyAll(slots, {LEGACY});
    forall p | p in PipesOf(slots) ensures p.origin == LEGACY {
      var s :| s in slots && p in s.pipes;
      assert s in multiset(slots);
      if s in multiset(made) {
        assert MadeIn(s, lo, hi) && PipeMadeIn(p, s.origin, lo, hi);
      } else {
        assert s in multiset(taken);
        assert s in multiset(prev.slots);
        assert MadeIn(s, 0, lo) && PipeMadeIn(p, s.origin, 0, lo);
      }
    }
  }

  /** What stands is whole. */
  lemma StandingIsWhole(prev: Build, free: seq<Slot>, t: Trail, lo: nat, hi: nat, legacy: seq<Slot>, st: Standing, b: Build)
    requires Whole(prev, lo) && Book(prev, free, t, lo, hi) && Placed(legacy, st, t)
    requires multiset(b.slots) == multiset(t.sofar) && b.good == st.good
    requires forall o :: SlotsOf(b.slots, o) == SlotsOf(t.sofar, o)
    ensures Whole(b, hi)
  {
    hide Fits, Tables, Only, NoClash, PipesOf;
    UniqueSub(multiset(t.reused), multiset(prev.slots));
    forall s | s in t.reused ensures MadeIn(s, 0, lo) { assert s in multiset(prev.slots); }
    assert UniqueSlots(b.slots) by {
      forall s | s in multiset(t.made) ensures MadeIn(s, lo, hi) {}
      UniqueUnion(multiset(t.reused), multiset(t.made), 0, lo, hi);
    }
    hide Unique;
    forall s | s in b.slots ensures MadeIn(s, 0, hi) && (s.origin == LEGACY || s.origin in b.good) {
      assert s in multiset(t.sofar);
      WiderMade(s, t, lo, hi);
    }
    SamePipeMembers(b.slots, t.sofar);
    NoClashSame(PipesOf(t.sofar), PipesOf(b.slots));
  }

  lemma WiderMade(s: Slot, t: Trail, lo: nat, hi: nat)
    requires Split(t.sofar, t.reused, t.made) && s in t.sofar && lo <= hi
    requires (forall x :: x in t.reused ==> MadeIn(x, 0, lo)) && forall x :: x in t.made ==> MadeIn(x, lo, hi)
    ensures MadeIn(s, 0, hi)
  {
    assert s in multiset(t.sofar);
    if s in multiset(t.reused) { assert MadeIn(s, 0, lo); } else { assert s in multiset(t.made) && MadeIn(s, lo, hi); }
    forall p | p in s.pipes ensures PipeMadeIn(p, s.origin, 0, hi) {
      assert PipeMadeIn(p, s.origin, 0, lo) || PipeMadeIn(p, s.origin, lo, hi);
    }
  }

  lemma SamePipeMembers(a: seq<Slot>, b: seq<Slot>)
    requires multiset(a) == multiset(b)
    ensures forall p :: p in PipesOf(a) <==> p in PipesOf(b)
  {
    forall p ensures p in PipesOf(a) <==> p in PipesOf(b) {
      if p in PipesOf(a) { var s :| s in a && p in s.pipes; assert s in multiset(b); }
      if p in PipesOf(b) { var s :| s in b && p in s.pipes; assert s in multiset(a); }
    }
  }

  lemma NoClashSame(a: seq<Pipe>, b: seq<Pipe>)
    requires NoClash(a) && forall p :: p in a <==> p in b
    ensures NoClash(b)
  {
  }

  /** Every file's pipelines: its present entries, whole; or, refused, just what it
      had; or none. */
  ghost predicate FilesSettled(prev: Build, layout: Layout, b: Build) {
    var files := ByFile(layout.entries);
    && (forall o :: o in b.good ==>
          if o in b.refused then o in prev.good && b.good[o] == prev.good[o] && SamePipes(prev, SlotsOf(b.slots, o), o)
          else o in files && o !in layout.refused && b.good[o] == files[o])
    && (forall o :: o in files || o in layout.refused ==> o in b.refused || o in b.good)
    && (forall o :: o in b.refused || o in b.good ==> o in files || o in layout.refused)
  }

  /** A file unchanged since its last good build keeps its very pipelines. */
  ghost predicate SteadyFilesKept(prev: Build, layout: Layout, b: Build) {
    forall o :: Unchanged(prev, ByFile(layout.entries), o) ==>
      && o in b.good && b.good[o] == prev.good[o] && SamePipes(prev, SlotsOf(b.slots, o), o)
      && (o !in layout.refused ==> o !in b.refused)
  }

  ghost predicate LegacySame(prev: Build, layout: Layout) {
    Fits(SlotsOf(prev.slots, LEGACY), LEGACY, LegacyOrder(layout.entries))
  }

  lemma LegacyReusable(prev: Build, layout: Layout)
    requires LegacySame(prev, layout)
    ensures Reusable(prev.slots, LEGACY, LegacyOrder(layout.entries))
  {
    ReusableOrigin(prev.slots, prev.slots, [], LEGACY, LegacyOrder(layout.entries));
  }

  lemma LegacyKept(prev: Build, layout: Layout, free: seq<Slot>, slots: seq<Slot>, taken: seq<Slot>)
    requires LegacySame(prev, layout) && Split(prev.slots, free, taken) && Split(slots, taken, [])
    requires Fits(slots, LEGACY, LegacyOrder(layout.entries))
    ensures SamePipes(prev, slots, LEGACY)
  {
    AllTaken(slots, taken, prev.slots, free);
    OriginReused(prev.slots, prev.slots, [], free, slots, LEGACY, LegacyOrder(layout.entries));
  }

  lemma NothingLive(lo: nat, hi: nat, c0: seq<nat>, c1: seq<nat>, b0: set<Pipe>, b1: set<Pipe>)
    requires Accounted(lo, hi, c0, c1, b0, b1, [])
    ensures forall p :: p in b1 - b0 ==> p.source in c1
  {
    forall p | p in b1 - b0 ensures p.source in c1 {
      assert p.source in c1[|c0|..];
    }
  }

  /** The files before `n` have had their turn, and no other. */
  ghost predicate Turned(order: seq<string>, n: nat, st: Standing)
    requires n <= |order|
  {
    && (forall x :: x in st.accepted || x in st.good || x in st.refused ==> x in order[..n])
    && (forall x :: x in order[..n] ==> x in st.refused || x in st.good)
  }

  ghost predicate SteadySoFar(prev: Build, order: seq<string>, bad: set<string>, st: Standing, m: nat)
    requires m <= |order|
  {
    forall x :: x in order[..m] ==> KeptWhole(prev, st, x) && (x !in bad ==> x !in st.refused)
  }

  lemma NotInPrefix(order: seq<string>, n: nat)
    requires n < |order| && NoRepeat(order)
    ensures order[n] !in order[..n] && order[..n + 1] == order[..n] + [order[n]]
  {
  }

  lemma TurnedMore(order: seq<string>, n: nat, st: Standing, st': Standing)
    requires n < |order| && NoRepeat(order) && Turned(order, n, st)
    requires st'.refused == st.refused || st'.refused == st.refused + {order[n]}
    requires order[n] in st'.refused || order[n] in st'.good
    requires forall x :: x in st.good ==> x in st'.good
    requires forall x :: x in st'.accepted ==> x in st.accepted || x == order[n]
    requires st'.accepted.Keys == st'.good.Keys
    ensures Turned(order, n + 1, st')
  {
    NotInPrefix(order, n);
  }

  lemma SteadyMore(prev: Build, order: seq<string>, n: nat, steady: nat, bad: set<string>, st: Standing, st': Standing)
    requires n < |order| && steady <= |order| && NoRepeat(order)
    requires SteadySoFar(prev, order, bad, st, if n < steady then n else steady)
    requires st'.refused == st.refused || st'.refused == st.refused + {order[n]}
    requires forall x :: x in st.good ==> x in st'.good && st'.good[x] == st.good[x]
    requires forall x :: x in st.accepted ==> x in st'.accepted && st'.accepted[x] == st.accepted[x]
    requires n < steady ==> KeptWhole(prev, st', order[n]) && (order[n] !in bad ==> order[n] !in st'.refused)
    ensures SteadySoFar(prev, order, bad, st', if n + 1 < steady then n + 1 else steady)
  {
    hide SamePipes;
    NotInPrefix(order, n);
    var m, m' := if n < steady then n else steady, if n + 1 < steady then n + 1 else steady;
    forall x | x in order[..m'] ensures KeptWhole(prev, st', x) && (x !in bad ==> x !in st'.refused) {
      if n < steady && x == order[n] {
      } else {
        assert x in order[..m];
        var i :| 0 <= i < m && order[i] == x;
        assert x != order[n];
        assert KeptWhole(prev, st, x);
      }
    }
  }

  /** The pipelines of `ps` that lie in `which`, in order. */
  function Among(ps: seq<Pipe>, which: seq<Pipe>): (r: seq<Pipe>)
    ensures forall p :: p in r <==> p in ps && p in which
  {
    if ps == [] then []
    else
      assert ps == ps[..|ps| - 1] + [ps[|ps| - 1]];
      Among(ps[..|ps| - 1], which) + if ps[|ps| - 1] in which then [ps[|ps| - 1]] else []
  }

  lemma MadeStand(t: Trail)
    requires Split(t.sofar, t.reused, t.made)
    ensures forall p :: p in PipesOf(t.made) ==> p in PipesOf(t.sofar)
  {
    forall p | p in PipesOf(t.made) ensures p in PipesOf(t.sofar) {
      var s :| s in t.made && p in s.pipes;
      assert s in multiset(t.made);
      assert s in multiset(t.sofar);
    }
  }

  lemma FinishFiles(prev: Build, layout: Layout, order: seq<string>, legacy: seq<Slot>, st: Standing, t: Trail, b: Build)
    requires Placed(legacy, st, t) && Provenance(prev, ByFile(layout.entries), layout.refused, st)
    requires Turned(order, |order|, st) && forall o :: o in order <==> o in ByFile(layout.entries) || o in layout.refused
    requires b.good == st.good && b.refused == st.refused && forall o :: SlotsOf(b.slots, o) == SlotsOf(t.sofar, o)
    ensures FilesSettled(prev, layout, b)
  {
    hide Fits, Tables, Only, PipesOf, SamePipes;
    assert order[..|order|] == order;
  }

  lemma FinishSteady(prev: Build, layout: Layout, order: seq<string>, steady: nat, legacy: seq<Slot>, st: Standing, t: Trail,
                     b: Build)
    requires steady <= |order| && SteadySoFar(prev, order, layout.refused, st, steady) && Placed(legacy, st, t)
    requires forall o :: o in order <==> o in ByFile(layout.entries) || o in layout.refused
    requires forall i :: 0 <= i < |order| ==> (i < steady <==> Unchanged(prev, ByFile(layout.entries), order[i]))
    requires b.good == st.good && b.refused == st.refused && forall o :: SlotsOf(b.slots, o) == SlotsOf(t.sofar, o)
    ensures SteadyFilesKept(prev, layout, b)
  {
    hide Fits, Tables, Only, PipesOf, SamePipes;
    forall o | Unchanged(prev, ByFile(layout.entries), o) ensures o in order[..steady] {
      assert o in order;
      var i :| 0 <= i < |order| && order[i] == o;
      assert i < steady;
    }
  }

  lemma FinishOpen(prev: Build, t: Trail, lo: nat, hi: nat, c0: seq<nat>, c1: seq<nat>, b0: set<Pipe>, b1: set<Pipe>, b: Build)
    requires Whole(prev, lo) && Open(prev, c0) && Split(t.sofar, t.reused, t.made) && multiset(t.reused) <= multiset(prev.slots)
    requires Accounted(lo, hi, c0, c1, b0, b1, PipesOf(t.made)) && multiset(b.slots) == multiset(t.sofar)
    requires forall n :: n in c0 ==> n < lo
    ensures Open(b, c1)
  {
    hide Unique, NoClash, Fits, Only;
    assert c1 == c0 + c1[|c0|..];
    forall p, n | p in PipesOf(b.slots) && n in Holds(p) ensures n !in c1 {
      var s :| s in b.slots && p in s.pipes;
      assert s in multiset(t.sofar);
      if s in multiset(t.made) {
        LiveAt(lo, hi, c1[|c0|..], PipesOf(t.made), p, n);
      } else {
        assert s in multiset(t.reused);
        assert s in multiset(prev.slots);
        assert p in PipesOf(prev.slots) && MadeIn(s, 0, lo) && PipeMadeIn(p, s.origin, 0, lo);
        assert n !in c0 && n < lo;
      }
    }
  }

  lemma ReusedFromPrev(all: seq<Slot>, free: seq<Slot>, reused: seq<Slot>)
    requires Split(all, free, reused)
    ensures multiset(reused) <= multiset(all)
  {
  }

  /** `_assemble`. `reused` and `made`: the slots of the new build that came from the
      previous one, and the rest. */
  method Assemble(works: Works, layout: Layout, prev: Build, strict: bool)
    returns (build: Option<Build>, ghost reused: seq<Slot>, ghost made: seq<Slot>)
    requires Whole(prev, works.nextId) && LEGACY !in layout.refused
    requires forall n :: n in works.closings ==> n < works.nextId
    modifies works
    ensures build.None? ==> strict && forall p :: p in works.built - old(works.built) ==> p.source in works.closings
    ensures build.Some? ==>
      && Whole(build.value, works.nextId)
      && (Open(prev, old(works.closings)) ==> Open(build.value, works.closings))
      && Split(build.value.slots, reused, made) && multiset(reused) <= multiset(prev.slots)
      && Made(made, old(works.nextId), works.nextId)
      && Accounted(old(works.nextId), works.nextId, old(works.closings), works.closings, old(works.built), works.built,
                   PipesOf(made))
      && (forall p :: p in build.value.added <==> p in PipesOf(made))
      && Fits(SlotsOf(build.value.slots, LEGACY), LEGACY, LegacyOrder(layout.entries))
      && FilesSettled(prev, layout, build.value)
      && (LegacySame(prev, layout) ==>
            SteadyFilesKept(prev, layout, build.value) && SamePipes(prev, SlotsOf(build.value.slots, LEGACY), LEGACY))
  {
    hide *;
    ghost var lo, c0, b0 := works.nextId, works.closings, works.built;
    var files, bad := ByFile(layout.entries), layout.refused;
    var pool := new Pool(prev.slots);
    var es := LegacyOrder(layout.entries);
    ghost var same := LegacySame(prev, layout);
    if same { LegacyReusable(prev, layout); }
    var legacy, added, raised;
    ghost var taken, made0;
    legacy, added, raised, taken, made0 := BuildLegacy(pool, works, es, strict);
    if raised {
      NothingLive(lo, works.nextId, c0, works.closings, b0, works.built);
      return None, [], [];
    }
    if same { LegacyKept(prev, layout, pool.free, legacy, taken); }
    var names, keys := LegacyTables(PipesOf(legacy));
    var st := Standing(names, keys, map[], map[], {}, added);
    ghost var t := Trail(legacy, taken, made0);
    LegacyStands(prev, pool.free, legacy, taken, made0, lo, works.nextId, es, names, keys);
    var order, steady := TurnOrder(prev, files, bad);
    NothingYet(prev, files, bad, order, st);
    for n := 0 to |order|
      invariant Book(prev, pool.free, t, lo, works.nextId) && Placed(legacy, st, t)
      invariant Accounted(lo, works.nextId, c0, works.closings, b0, works.built, PipesOf(t.made))
      invariant Provenance(prev, files, bad, st) && Turned(order, n, st)
      invariant same && n <= steady ==> t.made == []
      invariant same ==> SteadySoFar(prev, order, bad, st, if n < steady then n else steady)
    {
      ghost var st0 := st;
      ItsTurn(prev, files, bad, order, n, steady, st);
      st, t := TakeTurn(pool, works, files, bad, prev, order[n], st, t, lo, legacy, c0, b0);
      PlacedDomains(legacy, st, t);
      TurnedMore(order, n, st0, st);
      if same { SteadyMore(prev, order, n, steady, bad, st0, st); }
    }
    var slots := Gather(legacy, st, t);
    build := Some(Build(slots, st.good, st.refused, Among(PipesOf(slots), st.added)));
    reused, made := t.reused, t.made;
    Finish(prev, pool.free, layout, order, legacy, st, t, lo, works.nextId, c0, works.closings, b0, works.built, build.value);
    if same { FinishSteady(prev, layout, order, steady, legacy, st, t, build.value); }
    FinishLegacy(legacy, st, t);
  }

  lemma NothingYet(prev: Build, files: map<string, seq<Entry>>, bad: set<string>, order: seq<string>, st: Standing)
    requires st.accepted == map[] && st.good == map[] && st.refused == {}
    ensures Provenance(prev, files, bad, st) && Turned(order, 0, st) && SteadySoFar(prev, order, bad, st, 0)
  {
  }

  lemma ItsTurn(prev: Build, files: map<string, seq<Entry>>, bad: set<string>, order: seq<string>, n: nat, steady: nat,
                st: Standing)
    requires n < |order| && NoRepeat(order) && Turned(order, n, st)
    requires forall i :: 0 <= i < |order| ==> (i < steady <==> Unchanged(prev, files, order[i]))
    ensures order[n] !in st.accepted && order[n] !in st.refused
    ensures n < steady ==> order[n] in files && order[n] in prev.good && prev.good[order[n]] == files[order[n]]
  {
    NotInPrefix(order, n);
  }

  lemma Finish(prev: Build, free: seq<Slot>, layout: Layout, order: seq<string>, legacy: seq<Slot>, st: Standing, t: Trail,
               lo: nat, hi: nat, c0: seq<nat>, c1: seq<nat>, b0: set<Pipe>, b1: set<Pipe>, b: Build)
    requires Whole(prev, lo) && (forall n :: n in c0 ==> n < lo)
    requires Book(prev, free, t, lo, hi) && Placed(legacy, st, t)
    requires Accounted(lo, hi, c0, c1, b0, b1, PipesOf(t.made))
    requires Provenance(prev, ByFile(layout.entries), layout.refused, st) && Turned(order, |order|, st)
    requires forall o :: o in order <==> o in ByFile(layout.entries) || o in layout.refused
    requires multiset(b.slots) == multiset(t.sofar) && forall o :: SlotsOf(b.slots, o) == SlotsOf(t.sofar, o)
    requires b.good == st.good && b.refused == st.refused && b.added == Among(PipesOf(b.slots), st.added)
    ensures Whole(b, hi) && (Open(prev, c0) ==> Open(b, c1)) && Split(b.slots, t.reused, t.made) && Made(t.made, lo, hi)
    ensures multiset(t.reused) <= multiset(prev.slots) && FilesSettled(prev, layout, b)
    ensures forall p :: p in b.added <==> p in PipesOf(t.made)
  {
    hide Whole, Fits, Tables, Only, PipesOf, NoClash, Accounted, Provenance, Turned, Open, Made;
    ReusedFromPrev(prev.slots, free, t.reused);
    StandingIsWhole(prev, free, t, lo, hi, legacy, st, b);
    if Open(prev, c0) { FinishOpen(prev, t, lo, hi, c0, c1, b0, b1, b); }
    FinishFiles(prev, layout, order, legacy, st, t, b);
    MadeStand(t);
    SamePipeMembers(b.slots, t.sofar);
  }

  lemma FinishLegacy(legacy: seq<Slot>, st: Standing, t: Trail)
    requires Placed(legacy, st, t)
    ensures SlotsOf(t.sofar, LEGACY) == legacy
  {
    hide Fits, Tables;
  }
}
