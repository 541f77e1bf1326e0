/** The running set between pumps: `Uploader.replace_pipelines` (core.py) and the
    daemon's rebuild around it (daemon.py). */
module Running {
  import opened Cursors
  import opened Rebuild

  function Ids(ps: seq<Pipe>): set<nat> {
    set p | p in ps :: p.id
  }

  /** An object some of these pipelines hold. */
  ghost predicate Held(ps: seq<Pipe>, n: nat) {
    exists p :: p in ps && n in Holds(p)
  }

  /** What a pipeline holds, in the order it closes: source, transport, fallback. */
  function InCloseOrder(p: Pipe): (r: seq<nat>)
    ensures forall n :: n in r <==> n in Holds(p)
  {
    [p.source, p.transport] + if p.fallback.Some? then [p.fallback.value] else []
  }

  function Gone(ps: seq<Pipe>, keep: set<nat>): (r: seq<Pipe>)
    ensures forall p :: p in r <==> p in ps && p.id !in keep
  {
    if ps == [] then []
    else
      assert ps == ps[..|ps| - 1] + [ps[|ps| - 1]];
      Gone(ps[..|ps| - 1], keep) + if ps[|ps| - 1].id in keep then [] else [ps[|ps| - 1]]
  }

  ghost predicate Once(s: seq<nat>) {
    forall i, j :: 0 <= i < j < |s| ==> s[i] != s[j]
  }

  class Uploader {
    var pipelines: seq<Pipe>
    var executors: seq<nat>
    var nextExecutor: nat
    var shut: set<nat>
    const works: Works

    ghost predicate Valid()
      reads this
    {
      && |executors| == |pipelines|
      && (forall i :: 0 <= i < |executors| ==> executors[i] < nextExecutor)
      && forall x :: x in shut ==> x < nextExecutor
    }

    /** One executor of its own for each pipeline, none of them shut. */
    ghost predicate OneEach()
      reads this
    {
      && Valid() && Distinct(pipelines) && Once(executors)
      && forall i :: 0 <= i < |executors| ==> executors[i] !in shut
    }

    constructor (pipelines: seq<Pipe>, works: Works)
      ensures Valid() && this.pipelines == pipelines && this.works == works
      ensures Distinct(pipelines) ==> OneEach()
    {
      this.pipelines, this.works := pipelines, works;
      executors, nextExecutor, shut := seq(|pipelines|, i => i), |pipelines|, {};
    }

    /** A removed pipeline's objects that no kept pipeline holds and none closed yet. */
    method CloseObjects(p: Pipe, held: set<nat>, closed: set<nat>) returns (closed': set<nat>, ghost extra: seq<nat>)
      modifies works`closings
      ensures (forall n :: n in closed' <==> n in closed || n in extra) && works.closings == old(works.closings) + extra
      ensures Once(extra) && forall n :: n in extra <==> n in Holds(p) && n !in held && n !in closed
    {
      var objs := InCloseOrder(p);
      closed', extra := closed, [];
      for i := 0 to |objs|
        invariant works.closings == old(works.closings) + extra && Once(extra)
        invariant forall n :: n in closed' <==> n in closed || n in extra
        invariant forall n :: n in extra <==> n in objs[..i] && n !in held && n !in closed
      {
        var obj := objs[i];
        assert objs[..i + 1] == objs[..i] + [obj];
        if obj !in held && obj !in closed' {
          closed' := closed' + {obj};
          works.closings := works.closings + [obj];
          extra := extra + [obj];
        }
      }
      assert objs[..|objs|] == objs;
    }

    /** Each pipeline not kept closes what no kept one holds, and its executor shuts
        down; a kept one's executor is its own again. */
    method CloseRemoved(keep: set<nat>, held: set<nat>) returns (mine: map<nat, nat>, ghost extra: seq<nat>)
      requires Valid()
      modifies this`shut, works`closings
      ensures works.closings == old(works.closings) + extra && Closes(extra, pipelines, keep, held)
      ensures Mine(mine, pipelines, executors, keep)
      ensures shut == old(shut) + ExecutorsGone(pipelines, executors, keep)
    {
      var ps, execs := pipelines, executors;
      var closed: set<nat> := {};
      ghost var c0, shut0 := works.closings, shut;
      mine, extra := map[], [];
      assert |execs| == |ps|;
      hide *;
      NothingClosed(ps, execs, keep, held);
      for i := 0 to |ps|
        invariant works.closings == c0 + extra && Closes(extra, ps[..i], keep, held)
        invariant forall n :: n in extra <==> n in closed
        invariant Mine(mine, ps[..i], execs[..i], keep)
        invariant shut == shut0 + ExecutorsGone(ps[..i], execs[..i], keep)
      {
        Snoc(ps, i);
        Snoc(execs, i);
        MineMore(mine, ps[..i], execs[..i], keep, ps[i], execs[i]);
        ExecutorsGoneMore(ps[..i], execs[..i], keep, ps[i], execs[i]);
        Join(shut0, ExecutorsGone(ps[..i], execs[..i], keep), execs[i]);
        if ps[i].id in keep {
          ClosesKept(extra, ps[..i], keep, held, ps[i]);
          mine := mine[ps[i].id := execs[i]];
        } else {
          ghost var more;
          closed, more := CloseObjects(ps[i], held, closed);
          ClosesMore(extra, more, ps[..i], keep, held, ps[i]);
          assert c0 + extra + more == c0 + (extra + more);
          extra := extra + more;
          shut := shut + {execs[i]};
        }
      }
      Entire(ps);
      Entire(execs);
    }

    /** A kept pipeline's old executor, or a new one. */
    method AssignExecutors(new_: seq<Pipe>, mine: map<nat, nat>) returns (execs: seq<nat>)
      modifies this`nextExecutor
      ensures |execs| == |new_| && old(nextExecutor) <= nextExecutor
      ensures forall i :: 0 <= i < |new_| && new_[i].id in mine ==> execs[i] == mine[new_[i].id]
      ensures forall i :: 0 <= i < |new_| && new_[i].id !in mine ==> old(nextExecutor) <= execs[i] < nextExecutor
      ensures forall i, j :: 0 <= i < j < |new_| && new_[i].id !in mine && new_[j].id !in mine ==> execs[i] != execs[j]
    {
      execs := [];
      for i := 0 to |new_|
        invariant |execs| == i && old(nextExecutor) <= nextExecutor
        invariant forall j :: 0 <= j < i && new_[j].id in mine ==> execs[j] == mine[new_[j].id]
        invariant forall j :: 0 <= j < i && new_[j].id !in mine ==> old(nextExecutor) <= execs[j] < nextExecutor
        invariant forall j, k :: 0 <= j < k < i && new_[j].id !in mine && new_[k].id !in mine ==> execs[j] != execs[k]
      {
        if new_[i].id in mine {
          execs := execs + [mine[new_[i].id]];
        } else {
          execs := execs + [nextExecutor];
          nextExecutor := nextExecutor + 1;
        }
      }
    }

    /** `replace_pipelines`. `extra`: the objects it tries to close, each of those
        only removed pipelines hold, once. */
    method ReplacePipelines(new_: seq<Pipe>) returns (ghost extra: seq<nat>)
      requires Valid()
      modifies this, works`closings
      ensures Valid() && pipelines == new_
      ensures works.closings == old(works.closings) + extra && Once(extra)
      ensures forall n :: n in extra <==> Held(Gone(old(pipelines), Ids(new_)), n) && !Held(new_, n)
      ensures forall i :: 0 <= i < |new_| ==>
        if new_[i].id in Ids(old(pipelines))
        then LastExecutor(old(pipelines), old(executors), new_[i].id, executors[i])
        else executors[i] >= old(nextExecutor)
      ensures shut == old(shut) + ExecutorsGone(old(pipelines), old(executors), Ids(new_))
      ensures old(OneEach()) && Distinct(new_) ==> OneEach()
    {
      hide ExecutorsGone, Gone, Holds, Held, Once, Distinct, Ids, LastExecutor, Mine, Closes;
      ghost var old_, execs, one, first := pipelines, executors, OneEach(), nextExecutor;
      var held := set p, n | p in new_ && n in Holds(p) :: n;
      assert forall n :: n in held <==> Held(new_, n) by { HeldIff(new_, held); }
      var mine;
      mine, extra := CloseRemoved(Ids(new_), held);
      ClosesMeans(extra, old_, Ids(new_), held);
      executors := AssignExecutors(new_, mine);
      pipelines := new_;
      MineBelow(mine, old_, execs, Ids(new_), first);
      GoneBelow(old_, execs, Ids(new_), first);
      NewIds(new_);
      if one && Distinct(new_) {
        KeptOwn(old_, execs, mine, new_, executors, first);
        KeptRun(old_, execs, mine, new_, executors, first, shut);
      }
    }
  }

  lemma HeldIff(ps: seq<Pipe>, held: set<nat>)
    requires held == set p, n | p in ps && n in Holds(p) :: n
    ensures forall n :: n in held <==> Held(ps, n)
  {
  }

  lemma ClosesMeans(extra: seq<nat>, ps: seq<Pipe>, keep: set<nat>, held: set<nat>)
    requires Closes(extra, ps, keep, held)
    ensures Once(extra) && forall n :: n in extra <==> Held(Gone(ps, keep), n) && n !in held
  {
  }

  lemma NewIds(ps: seq<Pipe>)
    ensures forall i :: 0 <= i < |ps| ==> ps[i].id in Ids(ps)
  {
    forall i | 0 <= i < |ps| ensures ps[i].id in Ids(ps) { assert ps[i] in ps; }
  }

  /** `x` ran the last pipeline of this identity. */
  ghost predicate LastExecutor(ps: seq<Pipe>, execs: seq<nat>, id: nat, x: nat)
    requires |ps| == |execs|
  {
    exists j :: 0 <= j < |ps| && ps[j].id == id && execs[j] == x && forall k :: j < k < |ps| ==> ps[k].id != id
  }

  ghost predicate Closes(extra: seq<nat>, ps: seq<Pipe>, keep: set<nat>, held: set<nat>) {
    Once(extra) && forall n :: n in extra <==> Held(Gone(ps, keep), n) && n !in held
  }

  ghost predicate Mine(mine: map<nat, nat>, ps: seq<Pipe>, execs: seq<nat>, keep: set<nat>)
    requires |ps| == |execs|
  {
    && (forall id :: id in mine <==> id in keep && id in Ids(ps))
    && forall id :: id in mine ==> LastExecutor(ps, execs, id, mine[id])
  }

  /** The executors of the pipelines not kept. */
  function ExecutorsGone(ps: seq<Pipe>, execs: seq<nat>, keep: set<nat>): (r: set<nat>)
    requires |ps| == |execs|
    ensures forall x :: x in r <==> exists j :: 0 <= j < |ps| && ps[j].id !in keep && execs[j] == x
  {
    set j | 0 <= j < |ps| && ps[j].id !in keep :: execs[j]
  }

  lemma GoneMore(ps: seq<Pipe>, p: Pipe, keep: set<nat>)
    ensures Gone(ps + [p], keep) == Gone(ps, keep) + if p.id in keep then [] else [p]
  {
    assert (ps + [p])[..|ps|] == ps;
  }

  lemma ClosesKept(extra: seq<nat>, ps: seq<Pipe>, keep: set<nat>, held: set<nat>, p: Pipe)
    requires Closes(extra, ps, keep, held) && p.id in keep
    ensures Closes(extra, ps + [p], keep, held)
  {
    GoneMore(ps, p, keep);
    assert Gone(ps, keep) + [] == Gone(ps, keep);
  }

  lemma ClosesMore(extra: seq<nat>, more: seq<nat>, ps: seq<Pipe>, keep: set<nat>, held: set<nat>, p: Pipe)
    requires Closes(extra, ps, keep, held) && p.id !in keep && Once(more)
    requires forall n :: n in more <==> n in Holds(p) && n !in held && n !in extra
    ensures Closes(extra + more, ps + [p], keep, held)
  {
    hide Holds;
    GoneMore(ps, p, keep);
    OnceJoin(extra, more);
    forall n ensures Held(Gone(ps + [p], keep), n) <==> Held(Gone(ps, keep), n) || n in Holds(p) {
      HeldMore(Gone(ps, keep), p, n);
    }
  }

  lemma HeldMore(ps: seq<Pipe>, p: Pipe, n: nat)
    ensures Held(ps + [p], n) <==> Held(ps, n) || n in Holds(p)
  {
    hide Holds;
    if Held(ps, n) {
      var q :| q in ps && n in Holds(q);
      assert q in ps + [p];
    }
    if n in Holds(p) { assert p in ps + [p]; }
  }

  lemma OnceJoin(a: seq<nat>, b: seq<nat>)
    requires Once(a) && Once(b) && forall n :: n in b ==> n !in a
    ensures Once(a + b)
  {
    forall i: nat, j: nat | i < j < |a + b| ensures (a + b)[i] != (a + b)[j] {
      if i < |a| <= j { assert (a + b)[j] == b[j - |a|] && b[j - |a|] in b; }
    }
  }

  lemma Entire<T>(s: seq<T>)
    ensures s[..|s|] == s
  {
  }

  lemma NothingClosed(ps: seq<Pipe>, execs: seq<nat>, keep: set<nat>, held: set<nat>)
    requires |ps| == |execs|
    ensures Closes([], ps[..0], keep, held) && Mine(map[], ps[..0], execs[..0], keep)
    ensures ExecutorsGone(ps[..0], execs[..0], keep) == {}
  {
  }

  lemma Join(a: set<nat>, b: set<nat>, x: nat)
    ensures a + b + {x} == a + (b + {x}) && b + {} == b
  {
  }

  lemma MineMore(mine: map<nat, nat>, ps: seq<Pipe>, execs: seq<nat>, keep: set<nat>, p: Pipe, x: nat)
    requires |ps| == |execs| && Mine(mine, ps, execs, keep)
    ensures Mine(if p.id in keep then mine[p.id := x] else mine, ps + [p], execs + [x], keep)
  {
    var mine' := if p.id in keep then mine[p.id := x] else mine;
    forall id | id in mine' ensures LastExecutor(ps + [p], execs + [x], id, mine'[id]) {
      if id == p.id {
        assert (ps + [p])[|ps|].id == id && (execs + [x])[|ps|] == mine'[id];
      } else {
        var j :| 0 <= j < |ps| && ps[j].id == id && execs[j] == mine[id] && forall k :: j < k < |ps| ==> ps[k].id != id;
        assert (ps + [p])[j].id == id && (execs + [x])[j] == mine'[id];
      }
    }
    assert forall q :: q in ps + [p] <==> q in ps || q == p;
  }

  lemma ExecutorsGoneMore(ps: seq<Pipe>, execs: seq<nat>, keep: set<nat>, p: Pipe, x: nat)
    requires |ps| == |execs|
    ensures ExecutorsGone(ps + [p], execs + [x], keep) == ExecutorsGone(ps, execs, keep) + if p.id in keep then {} else {x}
  {
    var ps', execs' := ps + [p], execs + [x];
    forall y ensures y in ExecutorsGone(ps', execs', keep) <==>
                     y in ExecutorsGone(ps, execs, keep) || (p.id !in keep && y == x) {
      if y in ExecutorsGone(ps, execs, keep) {
        var j :| 0 <= j < |ps| && ps[j].id !in keep && execs[j] == y;
        assert ps'[j].id !in keep && execs'[j] == y;
      }
      if p.id !in keep { assert ps'[|ps|].id !in keep && execs'[|ps|] == x; }
    }
  }

  lemma MineBelow(mine: map<nat, nat>, ps: seq<Pipe>, execs: seq<nat>, keep: set<nat>, next: nat)
    requires |ps| == |execs| && Mine(mine, ps, execs, keep) && forall i :: 0 <= i < |execs| ==> execs[i] < next
    ensures forall id :: id in mine ==> mine[id] < next && LastExecutor(ps, execs, id, mine[id])
    ensures forall id :: id in mine <==> id in keep && id in Ids(ps)
  {
  }

  lemma GoneBelow(ps: seq<Pipe>, execs: seq<nat>, keep: set<nat>, next: nat)
    requires |ps| == |execs| && forall i :: 0 <= i < |execs| ==> execs[i] < next
    ensures forall x :: x in ExecutorsGone(ps, execs, keep) ==> x < next
  {
  }

  /** Different pipelines keep different executors. */
  lemma KeptOwn(ps: seq<Pipe>, execs: seq<nat>, mine: map<nat, nat>, new_: seq<Pipe>, now: seq<nat>, next: nat)
    requires |ps| == |execs| && Mine(mine, ps, execs, Ids(new_)) && Distinct(new_) && Once(execs) && |now| == |new_|
    requires forall i :: 0 <= i < |execs| ==> execs[i] < next
    requires forall i :: 0 <= i < |new_| && new_[i].id in mine ==> now[i] == mine[new_[i].id]
    requires forall i :: 0 <= i < |new_| && new_[i].id !in mine ==> next <= now[i]
    requires forall i, j :: 0 <= i < j < |new_| && new_[i].id !in mine && new_[j].id !in mine ==> now[i] != now[j]
    ensures Once(now)
  {
    MineBelow(mine, ps, execs, Ids(new_), next);
    forall i: nat, j: nat | i < j < |now| ensures now[i] != now[j] {
      var a, b := new_[i].id, new_[j].id;
      assert a != b;
      if a in mine && b in mine {
        assert LastExecutor(ps, execs, a, mine[a]) && LastExecutor(ps, execs, b, mine[b]);
        var k :| 0 <= k < |ps| && ps[k].id == a && execs[k] == mine[a];
        var l :| 0 <= l < |ps| && ps[l].id == b && execs[l] == mine[b];
        assert k != l;
      }
    }
  }

  /** ... and none of those still assigned is shut. */
  lemma KeptRun(ps: seq<Pipe>, execs: seq<nat>, mine: map<nat, nat>, new_: seq<Pipe>, now: seq<nat>, next: nat, shut: set<nat>)
    requires |ps| == |execs| && Mine(mine, ps, execs, Ids(new_)) && Once(execs) && |now| == |new_|
    requires forall i :: 0 <= i < |new_| && new_[i].id in mine ==> now[i] == mine[new_[i].id]
    requires forall i :: 0 <= i < |new_| && new_[i].id !in mine ==> next <= now[i]
    requires forall x :: x in shut ==> x < next
    requires forall x :: x in shut && x in execs ==> x in ExecutorsGone(ps, execs, Ids(new_))
    ensures forall i :: 0 <= i < |now| ==> now[i] !in shut
  {
    forall i | 0 <= i < |now| ensures now[i] !in shut {
      var a := new_[i].id;
      if a in mine {
        assert LastExecutor(ps, execs, a, mine[a]);
        var k :| 0 <= k < |ps| && ps[k].id == a && execs[k] == mine[a];
        assert a in Ids(new_) by { assert new_[i] in new_; }
        assert forall j :: 0 <= j < |ps| && execs[j] == now[i] ==> j == k;
      }
    }
  }

  // ---- the rebuild ------------------------------------------------------------------------

  const PRODUCER_STORE_VERSION: int := 2

  /** `split_refused`: a pipeline whose source names a producer needs a split store. */
  function Runnable(ps: seq<Pipe>, version: int): (r: seq<Pipe>)
    ensures forall p :: p in r <==> p in ps && !(p.producer && version < PRODUCER_STORE_VERSION)
  {
    if ps == [] then []
    else
      assert ps == ps[..|ps| - 1] + [ps[|ps| - 1]];
      Runnable(ps[..|ps| - 1], version)
      + if ps[|ps| - 1].producer && version < PRODUCER_STORE_VERSION then [] else [ps[|ps| - 1]]
  }

  lemma {:induction false} RunnableDistinct(ps: seq<Pipe>, version: int)
    requires Distinct(ps)
    ensures Distinct(Runnable(ps, version))
  {
    if ps != [] {
      var front := ps[..|ps| - 1];
      RunnableDistinct(front, version);
      forall p | p in Runnable(front, version) ensures p.id != ps[|ps| - 1].id {
        var i :| 0 <= i < |front| && front[i] == p;
        assert ps[i] == p;
      }
    }
  }

  /** Pipelines that neither stay in the build nor ever pumped. */
  function Dropped(ps: seq<Pipe>, kept: set<nat>, pumped: set<nat>): seq<Pipe> {
    Gone(ps, kept + pumped)
  }

  /** A pipeline that stays in the build but stops running, with an object no
      running pipeline still holds. */
  ghost predicate Stopped(p: Pipe, before: seq<Pipe>, b: Build, after: seq<Pipe>) {
    p in before && p in PipesOf(b.slots) && p !in after && exists n :: n in Holds(p) && !Held(after, n)
  }

  /** `b1` was assembled after `b0`, at `lo`. */
  ghost predicate Successive(b0: Build, b1: Build, reused: seq<Slot>, made: seq<Slot>, lo: nat, hi: nat) {
    && Whole(b0, lo) && Whole(b1, hi) && lo <= hi
    && Split(b1.slots, reused, made) && multiset(reused) <= multiset(b0.slots) && Made(made, lo, hi)
  }

  /** An old pipeline that shares an object with one of the new build is in it. */
  lemma TouchingStays(b0: Build, b1: Build, reused: seq<Slot>, made: seq<Slot>, lo: nat, hi: nat, p: Pipe, q: Pipe)
    requires Successive(b0, b1, reused, made, lo, hi)
    requires p in PipesOf(b0.slots) && q in PipesOf(b1.slots) && Touch(p, q)
    ensures p in PipesOf(b1.slots)
  {
    hide Unique, NoClash, Fits, Only;
    var s :| s in b0.slots && p in s.pipes;
    var t :| t in b1.slots && q in t.pipes;
    assert s in multiset(b0.slots) && t in multiset(b1.slots) && MadeIn(s, 0, lo);
    MadeApart(s, t, p, q, 0, lo, hi);
    assert t !in made;
    assert t in multiset(reused);
    assert t in multiset(b0.slots);
    SameSlot(multiset(b0.slots), s, t, p, q);
  }

  lemma GoneTouchesNothing(b0: Build, b1: Build, reused: seq<Slot>, made: seq<Slot>, lo: nat, hi: nat, p: Pipe, q: Pipe)
    requires Successive(b0, b1, reused, made, lo, hi)
    requires p in PipesOf(b0.slots) && q in PipesOf(b1.slots) && p !in PipesOf(b1.slots)
    ensures Holds(p) * Holds(q) == {}
  {
    hide Successive, PipesOf, Holds;
    if Touch(p, q) { TouchingStays(b0, b1, reused, made, lo, hi, p, q); }
  }

  lemma HeldBelow(b: Build, hi: nat, p: Pipe, n: nat)
    requires Whole(b, hi) && p in PipesOf(b.slots) && n in Holds(p)
    ensures n < hi
  {
    hide UniqueSlots, NoClash, Fits, Only;
    var s :| s in b.slots && p in s.pipes;
    assert MadeIn(s, 0, hi) && PipeMadeIn(p, s.origin, 0, hi);
  }

  /** A failed rebuild closes only what it made itself. */
  lemma OpenAfterFailure(b: Build, lo: nat, hi: nat, c0: seq<nat>, c1: seq<nat>, c2: seq<nat>, b0: set<Pipe>, b1: set<Pipe>,
                         live: seq<Pipe>, added: seq<Pipe>)
    requires Whole(b, lo) && Accounted(lo, hi, c0, c1, b0, b1, live) && c2 == c1 + SourcesOf(added)
    requires forall p :: p in added ==> p in live
    requires forall n :: n in c0 ==> n < lo
    ensures Open(b, c0) ==> Open(b, c2)
    ensures forall n :: n in c2 ==> n < hi
  {
    hide Whole, PipesOf, SourcesOf;
    var d := c1[|c0|..];
    assert c2 == c0 + d + SourcesOf(added);
    forall n | n in SourcesOf(added) ensures lo <= n < hi {
      SourceHeld(added, n);
      var p :| p in added && n in Holds(p);
      assert ObjectsApart(p, lo, hi, d);
    }
    forall p, n | p in PipesOf(b.slots) && n in Holds(p) ensures n < lo { HeldBelow(b, lo, p, n); }
    hide Holds;
  }

  lemma SourceHeld(ps: seq<Pipe>, n: nat)
    requires n in SourcesOf(ps)
    ensures Held(ps, n)
  {
    var p :| p in ps && p.source == n;
    assert n in Holds(p);
  }

  /** Closing what was dropped closes nothing of the new build. */
  lemma OpenAfterDrop(b0: Build, b1: Build, reused: seq<Slot>, made: seq<Slot>, lo: nat, hi: nat, pumped: set<nat>, c1: seq<nat>)
    requires Successive(b0, b1, reused, made, lo, hi)
    ensures var dropped := Dropped(PipesOf(b0.slots), Ids(PipesOf(b1.slots)), pumped);
      Open(b1, c1) ==> Open(b1, c1 + SourcesOf(dropped))
    ensures var dropped := Dropped(PipesOf(b0.slots), Ids(PipesOf(b1.slots)), pumped);
      forall n :: n in SourcesOf(dropped) ==> n < lo
  {
    hide Successive, PipesOf, SourcesOf;
    var dropped := Dropped(PipesOf(b0.slots), Ids(PipesOf(b1.slots)), pumped);
    forall n | n in SourcesOf(dropped)
      ensures n < lo && !Held(PipesOf(b1.slots), n)
    {
      SourceHeld(dropped, n);
      var p :| p in dropped && n in Holds(p);
      OldBelow(b0, b1, reused, made, lo, hi, p, n);
      assert p !in PipesOf(b1.slots);
      forall q | q in PipesOf(b1.slots) ensures n !in Holds(q) {
        GoneTouchesNothing(b0, b1, reused, made, lo, hi, p, q);
        assert n !in Holds(p) * Holds(q);
      }
    }
    hide Holds, Dropped, Ids;
  }

  lemma OldBelow(b0: Build, b1: Build, reused: seq<Slot>, made: seq<Slot>, lo: nat, hi: nat, p: Pipe, n: nat)
    requires Successive(b0, b1, reused, made, lo, hi) && p in PipesOf(b0.slots) && n in Holds(p)
    ensures n < lo
  {
    hide Whole;
    HeldBelow(b0, lo, p, n);
  }

  /** What the swap closes of the new build is what stopped pipelines alone hold. */
  lemma OpenAfterSwap(b0: Build, b1: Build, reused: seq<Slot>, made: seq<Slot>, lo: nat, hi: nat, before: seq<Pipe>,
                      after: seq<Pipe>, c2: seq<nat>, extra: seq<nat>)
    requires Successive(b0, b1, reused, made, lo, hi) && Open(b1, c2)
    requires (forall p :: p in before ==> p in PipesOf(b0.slots)) && (forall p :: p in after ==> p in PipesOf(b1.slots))
    requires forall n :: n in extra <==> Held(Gone(before, Ids(after)), n) && !Held(after, n)
    ensures Open(b1, c2 + extra) <==> !exists p :: Stopped(p, before, b1, after)
  {
    hide Successive, PipesOf, Holds, Gone, Held, Ids, Stopped;
    if p :| Stopped(p, before, b1, after) {
      StoppedCloses(b0, b1, reused, made, lo, hi, before, after, c2, extra, p);
    }
    if !Open(b1, c2 + extra) {
      var q, n :| q in PipesOf(b1.slots) && n in Holds(q) && n in c2 + extra;
      assert n in extra;
      ClosedIsStopped(b0, b1, reused, made, lo, hi, before, after, q, n);
    }
  }

  lemma StoppedCloses(b0: Build, b1: Build, reused: seq<Slot>, made: seq<Slot>, lo: nat, hi: nat, before: seq<Pipe>,
                      after: seq<Pipe>, c2: seq<nat>, extra: seq<nat>, p: Pipe)
    requires Successive(b0, b1, reused, made, lo, hi) && Stopped(p, before, b1, after)
    requires forall q :: q in after ==> q in PipesOf(b1.slots)
    requires forall n :: n in extra <==> Held(Gone(before, Ids(after)), n) && !Held(after, n)
    ensures !Open(b1, c2 + extra)
  {
    hide Successive, PipesOf, Holds;
    var n :| n in Holds(p) && !Held(after, n);
    SuccessorWhole(b0, b1, reused, made, lo, hi);
    StoppedIsGone(b1, hi, p, after);
    assert p in Gone(before, Ids(after));
    assert n in extra && n in c2 + extra;
  }

  lemma ClosedIsStopped(b0: Build, b1: Build, reused: seq<Slot>, made: seq<Slot>, lo: nat, hi: nat, before: seq<Pipe>,
                        after: seq<Pipe>, q: Pipe, n: nat)
    requires Successive(b0, b1, reused, made, lo, hi) && q in PipesOf(b1.slots) && n in Holds(q)
    requires forall p :: p in before ==> p in PipesOf(b0.slots)
    requires Held(Gone(before, Ids(after)), n) && !Held(after, n)
    ensures exists p :: Stopped(p, before, b1, after)
  {
    hide Successive, PipesOf, Holds;
    var p :| p in Gone(before, Ids(after)) && n in Holds(p);
    assert n in Holds(p) * Holds(q);
    TouchingStays(b0, b1, reused, made, lo, hi, p, q);
    assert p !in after;
    assert Stopped(p, before, b1, after);
  }

  lemma SuccessorWhole(b0: Build, b1: Build, reused: seq<Slot>, made: seq<Slot>, lo: nat, hi: nat)
    requires Successive(b0, b1, reused, made, lo, hi)
    ensures Whole(b1, hi)
  {
    hide Whole;
  }

  lemma StoppedIsGone(b: Build, hi: nat, p: Pipe, after: seq<Pipe>)
    requires Whole(b, hi) && p in PipesOf(b.slots) && p !in after && forall q :: q in after ==> q in PipesOf(b.slots)
    ensures p.id !in Ids(after)
  {
    hide Unique, PipesOf, Fits, NoClash;
    UniquePlaces(b.slots);
    forall q | q in after ensures q.id != p.id {
      DistinctMembers(PipesOf(b.slots), p, q);
    }
  }

  lemma DistinctMembers(ps: seq<Pipe>, p: Pipe, q: Pipe)
    requires Distinct(ps) && p in ps && q in ps && p != q
    ensures p.id != q.id
  {
    var i :| 0 <= i < |ps| && ps[i] == p;
    var j :| 0 <= j < |ps| && ps[j] == q;
    assert i < j || j < i;
  }

  lemma AssembledInOrder(b0: Build, b1: Build, reused: seq<Slot>, made: seq<Slot>, lo: nat, hi: nat, c0: seq<nat>,
                         c1: seq<nat>, built0: set<Pipe>, built1: set<Pipe>)
    requires Whole(b0, lo) && Whole(b1, hi) && Split(b1.slots, reused, made) && multiset(reused) <= multiset(b0.slots)
    requires Made(made, lo, hi) && Accounted(lo, hi, c0, c1, built0, built1, PipesOf(made))
    requires forall n :: n in c0 ==> n < lo
    ensures Successive(b0, b1, reused, made, lo, hi) && lo <= hi
    ensures forall n :: n in c1 ==> n < hi
  {
    hide Whole, Unique, UniqueSlots, PipesOf, MadeIn;
    assert c1 == c0 + c1[|c0|..];
  }

  lemma WholeLater(b: Build, lo: nat, hi: nat)
    requires Whole(b, lo) && lo <= hi
    ensures Whole(b, hi)
  {
    hide UniqueSlots, NoClash, Fits, Only, PipesOf;
    forall s | s in b.slots ensures MadeIn(s, 0, hi) {
      assert MadeIn(s, 0, lo);
      forall p | p in s.pipes ensures PipeMadeIn(p, s.origin, 0, hi) { assert PipeMadeIn(p, s.origin, 0, lo); }
    }
  }

  /** The runnable part of a whole build. */
  lemma NextRuns(b: Build, hi: nat, version: int)
    requires Whole(b, hi)
    ensures Distinct(Runnable(PipesOf(b.slots), version))
    ensures forall p :: p in Runnable(PipesOf(b.slots), version) ==> p in PipesOf(b.slots)
  {
    hide Unique, NoClash, Fits, Only, PipesOf, MadeIn;
    UniquePlaces(b.slots);
    RunnableDistinct(PipesOf(b.slots), version);
  }

  lemma NothingStopped(running: seq<Pipe>, b: Build)
    ensures !exists p :: Stopped(p, running, b, running)
  {
  }

  lemma ConcatBelow(a: seq<nat>, b: seq<nat>, hi: nat)
    requires (forall n :: n in a ==> n < hi) && forall n :: n in b ==> n < hi
    ensures forall n :: n in a + b ==> n < hi
  {
  }

  lemma SwapBelow(b0: Build, lo: nat, before: seq<Pipe>, after: seq<Pipe>, extra: seq<nat>)
    requires Whole(b0, lo) && forall p :: p in before ==> p in PipesOf(b0.slots)
    requires forall n :: n in extra <==> Held(Gone(before, Ids(after)), n) && !Held(after, n)
    ensures forall n :: n in extra ==> n < lo
  {
    hide Whole, PipesOf;
    forall n | n in extra ensures n < lo {
      var p :| p in Gone(before, Ids(after)) && n in Holds(p);
      HeldBelow(b0, lo, p, n);
    }
  }

  /** A build of one producer pipeline. */
  function LonePipe(key: W.Key): Pipe {
    Pipe(0, "p", key, LEGACY, 1, 2, None, true)
  }

  function LoneBuild(key: W.Key): Build {
    Build([Slot(LEGACY, None, Entry("p", "", 0), [LonePipe(key)])], map[], {}, [])
  }

  lemma LoneIsWhole(key: W.Key)
    ensures Whole(LoneBuild(key), 3)
  {
    var s := Slot(LEGACY, None, Entry("p", "", 0), [LonePipe(key)]);
    LonePipes(key);
    UniqueOne(s);
    assert multiset([s]) == multiset{s};
    hide PipesOf, Unique;
    assert MadeIn(s, 0, 3) && NoClash([LonePipe(key)]);
  }

  lemma LonePipes(key: W.Key)
    ensures PipesOf(LoneBuild(key).slots) == [LonePipe(key)]
  {
    var ss := LoneBuild(key).slots;
    assert ss[..0] == [] && PipesOf([]) == [];
    assert PipesOf(ss) == PipesOf(ss[..0]) + ss[0].pipes;
  }

  /** The store's version falls below the one producers need: the swap closes what the
      build still holds. */
  lemma FallingVersionClosesTheBuild(key: W.Key)
    ensures var p, b := LonePipe(key), LoneBuild(key);
      && Whole(b, 3) && Runnable(PipesOf(b.slots), PRODUCER_STORE_VERSION) == [p]
      && Runnable(PipesOf(b.slots), PRODUCER_STORE_VERSION - 1) == []
      && forall extra: seq<nat> ::
           (forall n :: n in extra <==> Held(Gone([p], Ids([])), n) && !Held([], n)) ==> !Open(b, extra)
  {
    var p, b := LonePipe(key), LoneBuild(key);
    LoneIsWhole(key);
    LonePipes(key);
    hide Whole, PipesOf, LoneBuild;
    assert [p][..0] == [];
    assert Runnable([], PRODUCER_STORE_VERSION) == [] && Runnable([], PRODUCER_STORE_VERSION - 1) == [];
    assert Gone([], {}) == [] && Gone([p], {}) == [p] && Ids([]) == {};
    assert 1 in Holds(p);
    forall extra: seq<nat> | forall n :: n in extra <==> Held(Gone([p], Ids([])), n) && !Held([], n) ensures !Open(b, extra) {
      assert Held([p], 1) && 1 in extra;
    }
  }

  class Rebuilder {
    const works: Works
    const uploader: Uploader
    var build: Build
    var running: seq<Pipe>

    ghost predicate Valid()
      reads this, works, uploader
    {
      && uploader.works == works && uploader.OneEach() && uploader.pipelines == running
      && Whole(build, works.nextId) && (forall n :: n in works.closings ==> n < works.nextId)
      && Distinct(running) && forall p :: p in running ==> p in PipesOf(build.slots)
    }

    /** After the start: the build `start` assembled, and the uploader that runs it. */
    constructor (works: Works, uploader: Uploader, build: Build, version: int)
      requires Whole(build, works.nextId) && forall n :: n in works.closings ==> n < works.nextId
      requires uploader.works == works && uploader.OneEach()
      requires uploader.pipelines == Runnable(PipesOf(build.slots), version)
      ensures Valid() && this.build == build && this.works == works && this.uploader == uploader
    {
      this.works, this.uploader, this.build := works, uploader, build;
      running := uploader.pipelines;
    }

    /** `rebuild`, between pumps. */
    method Rebuild(layout: Layout, version: int) returns (changed: bool, raised: bool)
      requires Valid() && LEGACY !in layout.refused
      modifies this, works, uploader
      ensures Valid()
      ensures raised ==> build == old(build) && running == old(running)
      ensures raised && old(Open(build, works.closings)) ==> Open(build, works.closings)
      ensures !raised ==>
        && running == Runnable(PipesOf(build.slots), version)
        && FilesSettled(old(build), layout, build)
        && (LegacySame(old(build), layout) ==> SteadyFilesKept(old(build), layout, build))
      ensures !raised && old(Open(build, works.closings)) ==>
        (Open(build, works.closings) <==> !exists p :: Stopped(p, old(running), build, running))
    {
      hide Whole, Open, Accounted, Split, Made, FilesSettled, SteadyFilesKept, LegacySame, Runnable, PipesOf, SourcesOf,
           Stopped, Dropped, Gone, Ids, Held, Holds, Distinct, Once, LastExecutor, ExecutorsGone, Fits, Successive;
      changed, raised := false, false;
      var unloadable: bool := *;  // reading the layout may raise
      if unloadable { return false, true; }
      ghost var b0, c0, before, lo, built0 := build, works.closings, running, works.nextId, works.built;
      var assembled;
      ghost var reused, made;
      assembled, reused, made := Assemble(works, layout, build, false);
      var b := assembled.value;
      ghost var hi, c1 := works.nextId, works.closings;
      AssembledInOrder(b0, b, reused, made, lo, hi, c0, c1, built0, works.built);
      var next := Runnable(PipesOf(b.slots), version);
      var rowsDiffer: bool := *;
      changed := next != running || rowsDiffer;
      // Asking the store its version may raise; so may recording a changed set.
      var refreshFails, recordFails: bool := *, *;
      raised := refreshFails || (changed && recordFails);
      if raised {
        works.CloseQuietly(b.added);
        OpenAfterFailure(b0, lo, hi, c0, c1, works.closings, built0, works.built, PipesOf(made), b.added);
        WholeLater(b0, lo, hi);
        return;
      }
      var dropped := Dropped(PipesOf(build.slots), Ids(PipesOf(b.slots)), Ids(uploader.pipelines));
      works.CloseQuietly(dropped);
      OpenAfterDrop(b0, b, reused, made, lo, hi, Ids(uploader.pipelines), c1);
      build := b;
      NextRuns(b, hi, version);
      ConcatBelow(c1, SourcesOf(dropped), hi);
      if !changed {
        NothingStopped(before, b);
        return;
      }
      ghost var c2 := works.closings;
      ghost var extra := uploader.ReplacePipelines(next);
      running := next;
      if Open(b, c2) { OpenAfterSwap(b0, b, reused, made, lo, hi, before, next, c2, extra); }
      SwapBelow(b0, lo, before, next, extra);
      ConcatBelow(c2, extra, hi);
    }
  }
}
