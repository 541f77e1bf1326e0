/** Raising a store's schema version (watermark/schema.py): the pskreporter
    split, the fill of missing producer keys, and the retry pass. */
module Migration {
  import opened Cursors
  import opened Sink
  import opened WatermarkStore

  const OLD_PIPELINE := "psk-pskreporter"
  const OLD_SOURCE := "sqlite:psk.spots"
  const PSK_PIPELINE := "psk-recorder-pskreporter"
  const PSK_SOURCE := "sqlite:psk.spots@psk-recorder"
  const METEOR_PIPELINE := "meteor-scatter-pskreporter"
  const METEOR_SOURCE := "sqlite:psk.spots@meteor-scatter"
  const NEW_SOURCES: set<string> := {PSK_SOURCE, METEOR_SOURCE}
  const SCHEMA_VERSION: nat := 3
  const ATTEMPT_COLUMNS: set<string> := {"pipeline", "client"}

  /** The tables a migration reads or writes. */
  datatype Tables = Tables(version: nat, watermarks: map<Key, Record>, superseded: set<(Key, Key)>,
                           deliverables: seq<Deliverable>, attemptColumns: set<string>, hasLastSend: bool)

  /** `sink`: the ids of the sink's psk.spots rows, when one was named and reads;
      `keeper`: `--keep-retry-for`. */
  datatype Context = Context(sink: Option<set<int>>, keeper: Option<string>)

  predicate ValidContext(ctx: Context) {
    ctx.keeper.Some? ==> ctx.keeper.value in {PSK_PIPELINE, METEOR_PIPELINE}
  }

  function SourceOf(pipeline: string): string {
    if pipeline == PSK_PIPELINE then PSK_SOURCE else METEOR_SOURCE
  }

  // ---- old records and producer keys ---------------------------------------------------

  /** `dest_id LIKE 'pskreporter%'`, which ignores ASCII case. */
  predicate PskDest(dest: string) {
    |dest| >= 11 && Lower(dest[..11]) == "pskreporter"
  }

  predicate IsOld(k: Key) {
    k.source == OLD_SOURCE && PskDest(k.dest)
  }

  function OldOf(k: Key): Key {
    Key(OLD_SOURCE, k.dest, k.table)
  }

  function OldKeys(wm: map<Key, Record>): set<Key> {
    set k | k in wm.Keys && IsOld(k)
  }

  /** The producer keys that succeed some old records. */
  function Successors(olds: set<Key>): set<Key> {
    set k: Key, s: string | k in olds && s in NEW_SOURCES :: Key(s, k.dest, k.table)
  }

  lemma SuccessorIff(wm: map<Key, Record>, k: Key)
    ensures k in Successors(OldKeys(wm)) <==> k.source in NEW_SOURCES && OldOf(k) in wm && PskDest(k.dest)
  {
    if k.source in NEW_SOURCES && OldOf(k) in wm && PskDest(k.dest) {
      assert OldOf(k) in OldKeys(wm) && k == Key(k.source, OldOf(k).dest, OldOf(k).table);
    }
  }

  lemma OneMoreOld(olds: set<Key>, k: Key)
    ensures Successors(olds + {k}) ==
            Successors(olds) + {Key(PSK_SOURCE, k.dest, k.table)} + {Key(METEOR_SOURCE, k.dest, k.table)}
  {
  }

  /** `k` succeeds a record of `wm`. */
  predicate Succeeds(wm: map<Key, Record>, k: Key) {
    k.source in NEW_SOURCES && OldOf(k) in wm && PskDest(k.dest)
  }

  predicate Succeeding(wm: map<Key, Record>, keys: set<Key>) {
    forall k :: k in keys ==> Succeeds(wm, k)
  }

  lemma SuccessorsSucceed(wm: map<Key, Record>)
    ensures Succeeding(wm, Successors(OldKeys(wm)))
  {
    forall k | k in Successors(OldKeys(wm)) ensures Succeeds(wm, k) {
      SuccessorIff(wm, k);
    }
  }

  /** Each of `keys` that holds no record gets its old record, whole. */
  function Filled(wm: map<Key, Record>, keys: set<Key>): map<Key, Record>
    requires Succeeding(wm, keys)
  {
    wm + map k | k in keys && k !in wm :: wm[OldOf(k)]
  }

  function Pairs(keys: set<Key>): set<(Key, Key)> {
    set k | k in keys :: (OldOf(k), k)
  }

  lemma OneMoreKey(wm: map<Key, Record>, keys: set<Key>, k: Key)
    requires Succeeding(wm, keys) && Succeeds(wm, k)
    ensures Succeeding(wm, keys + {k}) && Pairs(keys + {k}) == Pairs(keys) + {(OldOf(k), k)}
    ensures k in Filled(wm, keys) <==> k in wm || k in keys
    ensures OldOf(k) in Filled(wm, keys) && wm[OldOf(k)] == Filled(wm, keys)[OldOf(k)]
    ensures Filled(wm, keys + {k}) ==
            if k in Filled(wm, keys) then Filled(wm, keys) else Filled(wm, keys)[k := wm[OldOf(k)]]
  {
  }

  function Missing(wm: map<Key, Record>): set<Key> {
    Successors(OldKeys(wm)) - wm.Keys
  }

  lemma MissingIff(wm: map<Key, Record>, k: Key)
    ensures k in Missing(wm) <==> k !in wm && Succeeds(wm, k)
  {
    SuccessorIff(wm, k);
  }

  /** The table once no producer key is missing. */
  function AllFilled(wm: map<Key, Record>): map<Key, Record> {
    SuccessorsSucceed(wm);
    Filled(wm, Successors(OldKeys(wm)))
  }

  /** `_fills`: versions this code knows, from the split up. */
  predicate Fills(version: nat) {
    2 <= version <= SCHEMA_VERSION
  }

  // ---- the retry pass -------------------------------------------------------------------

  datatype Action = Delete | Move | Stay

  /** A record a retry may stand for; an empty part of the retry's key matches any. */
  predicate Matches(k: Key, key: Key) {
    && k.source == (if key.source == "" then OLD_SOURCE else key.source) && PskDest(k.dest)
    && (key.dest == "" || k.dest == key.dest) && (key.table == "" || k.table == key.table)
  }

  function Matching(wm: map<Key, Record>, key: Key): set<Key> {
    set k | k in wm.Keys && Matches(k, key)
  }

  lemma OnlyIsUnique<T>(s: set<T>, a: T, b: T)
    requires |s| == 1 && a in s && b in s
    ensures a == b
  {
    assert |s - {a}| == 0;
  }

  function Only(s: set<Key>): (k: Key)
    requires |s| == 1
    ensures s == {k}
  {
    assert forall a, b :: a in s && b in s ==> a == b by {
      forall a, b | a in s && b in s ensures a == b { OnlyIsUnique(s, a, b); }
    }
    var k :| k in s;
    k
  }

  /** The record reads as a row id, and the sink still holds a row at or before it. */
  predicate SinkHolds(c: Cursor, sink: Option<set<int>>) {
    c.Digits? && sink.Some? && exists id :: id in sink.value && id <= c.n
  }

  predicate BothProducersKnow(wm: map<Key, Record>, k: Key) {
    Key(PSK_SOURCE, k.dest, k.table) in wm && Key(METEOR_SOURCE, k.dest, k.table) in wm
  }

  /** The new pipelines will re-read this retry's rows: one record alone is what
      it stands for, and the sink still holds rows from there on. */
  predicate Deletes(wm: map<Key, Record>, ctx: Context, d: Deliverable, assumeFilled: bool) {
    var keys := Matching(wm, d.key);
    |keys| == 1 && SinkHolds(wm[Only(keys)].cursor, ctx.sink) && (assumeFilled || BothProducersKnow(wm, Only(keys)))
  }

  /** `_plan_retries`, for one retry. */
  function Plan(wm: map<Key, Record>, ctx: Context, d: Deliverable, assumeFilled: bool): Action {
    if d.pipeline != OLD_PIPELINE then Stay
    else if Deletes(wm, ctx, d, assumeFilled) then Delete
    else if ctx.keeper.Some? then Move
    else Stay
  }

  function Settled(ctx: Context, d: Deliverable, a: Action): seq<Deliverable> {
    if a == Delete then []
    else if a == Move && ctx.keeper.Some? then
      [d.(pipeline := ctx.keeper.value, key := d.key.(source := SourceOf(ctx.keeper.value)))]
    else [d]
  }

  /** Every retry settled by its own plan. */
  function SettledAll(ctx: Context, wm: map<Key, Record>, ds: seq<Deliverable>): seq<Deliverable> {
    if ds == [] then []
    else
      var d := ds[|ds| - 1];
      SettledAll(ctx, wm, ds[..|ds| - 1]) + Settled(ctx, d, Plan(wm, ctx, d, false))
  }

  // ---- the whole migration -----------------------------------------------------------------

  function FinalVersion(version: nat): nat {
    if version < SCHEMA_VERSION then SCHEMA_VERSION else version
  }

  /** The producer keys' table after the split and the fill. */
  function FinalWatermarks(t: Tables): map<Key, Record> {
    if Fills(FinalVersion(t.version)) then AllFilled(t.watermarks) else t.watermarks
  }

  function FinalSuperseded(t: Tables): set<(Key, Key)> {
    if t.version < 2 then t.superseded + Pairs(Successors(OldKeys(t.watermarks)))
    else if Fills(t.version) then t.superseded + Pairs(Missing(t.watermarks))
    else t.superseded
  }

  /** The store after `migrate`. */
  function Migrated(t: Tables, ctx: Context): Tables {
    Tables(FinalVersion(t.version), FinalWatermarks(t), FinalSuperseded(t),
           SettledAll(ctx, FinalWatermarks(t), t.deliverables),
           if t.version < 3 then t.attemptColumns + ATTEMPT_COLUMNS else t.attemptColumns,
           t.version < 3 || t.hasLastSend)
  }

  /** `--check`: whether a migrate would write. */
  predicate WouldWrite(t: Tables, ctx: Context) {
    || t.version < SCHEMA_VERSION
    || (Fills(t.version) && Missing(t.watermarks) != {})
    || exists d :: d in t.deliverables && Plan(t.watermarks, ctx, d, Fills(FinalVersion(t.version))) != Stay
  }

  class MigratingStore {
    var version: nat
    var watermarks: map<Key, Record>
    var superseded: set<(Key, Key)>
    var deliverables: seq<Deliverable>
    var attemptColumns: set<string>
    var hasLastSend: bool

    constructor (t: Tables)
      ensures Now() == t
    {
      version, watermarks, superseded, deliverables := t.version, t.watermarks, t.superseded, t.deliverables;
      attemptColumns, hasLastSend := t.attemptColumns, t.hasLastSend;
    }

    function Now(): Tables
      reads this
    {
      Tables(version, watermarks, superseded, deliverables, attemptColumns, hasLastSend)
    }

    /** `_split_pskreporter`: both producer keys of every old record; each pair named. */
    method SplitPskreporter()
      modifies this`watermarks, this`superseded
      ensures watermarks == AllFilled(old(watermarks))
      ensures superseded == old(superseded) + Pairs(Successors(OldKeys(old(watermarks))))
    {
      var wm := watermarks;
      var todo, done := OldKeys(wm), {};
      assert Successors({}) == {};
      while todo != {}
        invariant todo <= OldKeys(wm) && done == OldKeys(wm) - todo && Succeeding(wm, Successors(done))
        invariant watermarks == Filled(wm, Successors(done))
        invariant superseded == old(superseded) + Pairs(Successors(done))
        decreases |todo|
      {
        var k :| k in todo;
        assert IsOld(k) && k in wm;
        hide *;
        ghost var p, m := Key(PSK_SOURCE, k.dest, k.table), Key(METEOR_SOURCE, k.dest, k.table);
        SuccessorOfOld(wm, k);
        OneMoreOld(done, k);
        OneMoreKey(wm, Successors(done), p);
        CopyTo(k, PSK_SOURCE);
        OneMoreKey(wm, Successors(done) + {p}, m);
        CopyTo(k, METEOR_SOURCE);
        Join(old(superseded), Pairs(Successors(done)), (k, p), (k, m));
        TakeOut(OldKeys(wm), todo, k);
        todo, done := todo - {k}, done + {k};
      }
      assert done == OldKeys(wm);
    }

    /** One old record to one producer key, unless that key holds a record. */
    method CopyTo(k: Key, source: string)
      requires k in watermarks
      modifies this`watermarks, this`superseded
      ensures var n := Key(source, k.dest, k.table);
        && watermarks == (if n in old(watermarks) then old(watermarks) else old(watermarks)[n := old(watermarks)[k]])
        && superseded == old(superseded) + {(k, n)}
    {
      var n := Key(source, k.dest, k.table);
      if n !in watermarks {
        watermarks := watermarks[n := watermarks[k]];
      }
      superseded := superseded + {(k, n)};
    }

    /** `_fill_missing_producer_keys`: only keys that hold no record, and only their pairs. */
    method FillMissingProducerKeys()
      modifies this`watermarks, this`superseded
      ensures watermarks == AllFilled(old(watermarks))
      ensures superseded == old(superseded) + Pairs(Missing(old(watermarks)))
    {
      hide *;
      var wm := watermarks;
      var todo, done := Missing(wm), {};
      FillOfNoKey(wm);
      while todo != {}
        invariant todo <= Missing(wm) && done == Missing(wm) - todo && Succeeding(wm, done)
        invariant watermarks == Filled(wm, done) && superseded == old(superseded) + Pairs(done)
        decreases |todo|
      {
        var k :| k in todo;
        MissingIff(wm, k);
        OneMoreKey(wm, done, k);
        watermarks := watermarks[k := watermarks[OldOf(k)]];
        superseded := superseded + {(OldOf(k), k)};
        Join(old(superseded), Pairs(done), (OldOf(k), k), (OldOf(k), k));
        TakeOut(Missing(wm), todo, k);
        todo, done := todo - {k}, done + {k};
      }
      assert done == Missing(wm);
      FillIsMissing(wm);
    }

    /** `_plan_retries`: read only. */
    method PlanRetries(ctx: Context, assumeFilled: bool) returns (plan: seq<Action>)
      ensures |plan| == |deliverables|
      ensures forall i :: 0 <= i < |plan| ==> plan[i] == Plan(watermarks, ctx, deliverables[i], assumeFilled)
    {
      plan := [];
      for i := 0 to |deliverables|
        invariant |plan| == i
        invariant forall j :: 0 <= j < i ==> plan[j] == Plan(watermarks, ctx, deliverables[j], assumeFilled)
      {
        plan := plan + [Plan(watermarks, ctx, deliverables[i], assumeFilled)];
      }
    }

    /** `_apply_retries`. */
    method ApplyRetries(ctx: Context, plan: seq<Action>)
      requires |plan| == |deliverables|
      requires forall i :: 0 <= i < |plan| ==> plan[i] == Plan(watermarks, ctx, deliverables[i], false)
      modifies this`deliverables
      ensures deliverables == SettledAll(ctx, watermarks, old(deliverables))
    {
      hide Plan, Settled;
      var ds := deliverables;
      deliverables := [];
      for i := 0 to |ds|
        invariant deliverables == SettledAll(ctx, watermarks, ds[..i])
      {
        assert ds[..i + 1][..i] == ds[..i];
        deliverables := deliverables + Settled(ctx, ds[i], plan[i]);
      }
      assert ds[..|ds|] == ds;
    }

    /** `migrate`, one transaction, taken only when something would be written. */
    method Migrate(ctx: Context) returns (wrote: bool)
      requires ValidContext(ctx)
      modifies this
      ensures Now() == Migrated(old(Now()), ctx)
      ensures wrote <==> WouldWrite(old(Now()), ctx)
    {
      hide Plan, AllFilled, Missing, Successors, OldKeys, SettledAll, Pairs;
      var plan := PlanRetries(ctx, Fills(version));
      if version >= SCHEMA_VERSION && !(Fills(version) && Missing(watermarks) != {})
         && forall i :: 0 <= i < |plan| ==> plan[i] == Stay {
        CheckIsExact(Now(), ctx);
        return false;
      }
      NothingMissing(watermarks);
      FillOfNoKey(watermarks);
      if version < 2 {
        SplitPskreporter();
        version := 2;
      }
      if version < 3 {
        attemptColumns := attemptColumns + ATTEMPT_COLUMNS;
        hasLastSend := true;
        version := 3;
      }
      if Fills(version) {
        FillMissingProducerKeys();
      }
      plan := PlanRetries(ctx, false);
      ApplyRetries(ctx, plan);
      return true;
    }
  }

  lemma FillOfNoKey(wm: map<Key, Record>)
    ensures Pairs({}) == {} && Succeeding(wm, {}) && Filled(wm, {}) == wm
  {
  }

  lemma Join<T>(a: set<T>, b: set<T>, x: T, y: T)
    ensures a + b + {x} == a + (b + {x})
    ensures a + b + {x} + {y} == a + (b + {x} + {y})
  {
  }

  lemma TakeOut<T>(all: set<T>, todo: set<T>, k: T)
    requires k in todo && todo <= all
    ensures all - (todo - {k}) == (all - todo) + {k}
  {
  }

  lemma SuccessorOfOld(wm: map<Key, Record>, k: Key)
    requires k in wm && IsOld(k)
    ensures var p, m := Key(PSK_SOURCE, k.dest, k.table), Key(METEOR_SOURCE, k.dest, k.table);
      Succeeds(wm, p) && Succeeds(wm, m) && OldOf(p) == k && OldOf(m) == k
  {
  }

  lemma FillIsMissing(wm: map<Key, Record>)
    ensures Succeeding(wm, Missing(wm)) && Filled(wm, Missing(wm)) == AllFilled(wm)
  {
    SuccessorsSucceed(wm);
  }

  /** The fill, key by key: every record stays; each missing producer key of an
      old record gets that record, whole; nothing else appears. */
  lemma FillAddsExactlyTheMissing(wm: map<Key, Record>, k: Key)
    ensures k in wm ==> k in AllFilled(wm) && AllFilled(wm)[k] == wm[k]
    ensures k !in wm ==> (k in AllFilled(wm) <==> Succeeds(wm, k))
    ensures k !in wm && Succeeds(wm, k) ==> AllFilled(wm)[k] == wm[OldOf(k)]
  {
    SuccessorsSucceed(wm);
    SuccessorIff(wm, k);
  }

  lemma OldStaysOld(wm: map<Key, Record>, k: Key)
    requires k.source == OLD_SOURCE
    ensures k in AllFilled(wm) <==> k in wm
  {
    FillAddsExactlyTheMissing(wm, k);
  }

  lemma SuccessorSource(wm: map<Key, Record>, k: Key)
    requires Succeeds(wm, k)
    ensures k.source in {PSK_SOURCE, METEOR_SOURCE} && k.source != OLD_SOURCE && OldOf(k).source == OLD_SOURCE
  {
    assert |OLD_SOURCE| < |PSK_SOURCE| && |OLD_SOURCE| < |METEOR_SOURCE|;
  }

  /** Afterwards no producer key is missing, and a second fill finds nothing. */
  lemma NothingMissing(wm: map<Key, Record>)
    ensures Missing(AllFilled(wm)) == {} && AllFilled(AllFilled(wm)) == AllFilled(wm)
  {
    hide AllFilled, OldKeys, Successors;
    var f := AllFilled(wm);
    forall k ensures k !in Missing(f) {
      MissingIff(f, k);
      FillAddsExactlyTheMissing(wm, k);
      OldStaysOld(wm, OldOf(k));
    }
    FillOfNothing(f);
  }

  lemma FillOfNothing(wm: map<Key, Record>)
    requires Missing(wm) == {}
    ensures AllFilled(wm) == wm
  {
    FillIsMissing(wm);
  }

  // ---- the preview ------------------------------------------------------------------------

  /** The keys the fill adds that this retry's key matches. */
  function Newcomers(wm: map<Key, Record>, key: Key): set<Key> {
    set k | k in Missing(wm) && Matches(k, key)
  }

  lemma MatchingAfterFill(wm: map<Key, Record>, key: Key)
    ensures Matching(AllFilled(wm), key) == Matching(wm, key) + Newcomers(wm, key)
    ensures key.source in {"", OLD_SOURCE} ==> Newcomers(wm, key) == {}
  {
    hide AllFilled, Missing, Succeeds;
    forall k ensures k in AllFilled(wm) <==> k in wm || k in Missing(wm) {
      FillAddsExactlyTheMissing(wm, k);
      MissingIff(wm, k);
    }
    forall k | k in Missing(wm) ensures k.source != OLD_SOURCE {
      MissingIff(wm, k);
      SuccessorSource(wm, k);
    }
  }

  /** The preview of a retry is not what the migration does: its key names a
      source of its own, and either the fill adds a record that key matches, or
      it adds none but a producer key of the record it stands for stays missing. */
  predicate Exposed(t: Tables, ctx: Context, d: Deliverable) {
    var wm := t.watermarks;
    var keys, more := Matching(wm, d.key), Newcomers(wm, d.key);
    && d.pipeline == OLD_PIPELINE && Fills(FinalVersion(t.version)) && d.key.source !in {"", OLD_SOURCE}
    && if more != {} && keys == {} then
         |more| == 1 && OldOf(Only(more)) in wm && SinkHolds(wm[OldOf(Only(more))].cursor, ctx.sink)
       else
         && |keys| == 1 && SinkHolds(wm[Only(keys)].cursor, ctx.sink)
         && (more != {} || !(BothProducersKnow(wm, Only(keys)) || OldOf(Only(keys)) in wm))
  }

  lemma ProducersAfterFill(wm: map<Key, Record>, k: Key)
    requires PskDest(k.dest)
    ensures BothProducersKnow(AllFilled(wm), k) <==> BothProducersKnow(wm, k) || OldOf(k) in wm
  {
    hide AllFilled, PskDest;
    FillAddsExactlyTheMissing(wm, Key(PSK_SOURCE, k.dest, k.table));
    FillAddsExactlyTheMissing(wm, Key(METEOR_SOURCE, k.dest, k.table));
  }

  lemma DeletesAfterFill(t: Tables, ctx: Context, d: Deliverable)
    requires d.pipeline == OLD_PIPELINE && Fills(FinalVersion(t.version))
    ensures (Deletes(t.watermarks, ctx, d, true) == Deletes(AllFilled(t.watermarks), ctx, d, false)) <==> !Exposed(t, ctx, d)
  {
    hide AllFilled, PskDest, Missing, SinkHolds, BothProducersKnow;
    var wm := t.watermarks;
    var keys, more := Matching(wm, d.key), Newcomers(wm, d.key);
    MatchingAfterFill(wm, d.key);
    forall n | n in more ensures n !in wm && Succeeds(wm, n) { MissingIff(wm, n); }
    assert |keys + more| == |keys| + |more| by { assert keys !! more; }
    if more == {} {
      assert keys + more == keys;
      if |keys| == 1 {
        FillAddsExactlyTheMissing(wm, Only(keys));
        ProducersAfterFill(wm, Only(keys));
      }
    } else if keys == {} {
      assert keys + more == more;
      if |more| == 1 {
        FillAddsExactlyTheMissing(wm, Only(more));
        ProducersAfterFill(wm, Only(more));
      }
    }
  }

  /** What `--check` says of a retry is what migrating does to it, exactly when it
      is not exposed; a retry keyed as the old pipeline queued it never is. */
  lemma PreviewExactIff(t: Tables, ctx: Context, d: Deliverable)
    ensures Plan(t.watermarks, ctx, d, Fills(FinalVersion(t.version))) == Plan(FinalWatermarks(t), ctx, d, false)
            <==> !Exposed(t, ctx, d)
  {
    hide AllFilled, Deletes, Exposed;
    if d.pipeline == OLD_PIPELINE && Fills(FinalVersion(t.version)) {
      DeletesAfterFill(t, ctx, d);
    } else {
      NotExposed(t, ctx, d);
    }
  }

  lemma NotExposed(t: Tables, ctx: Context, d: Deliverable)
    requires d.pipeline != OLD_PIPELINE || !Fills(FinalVersion(t.version))
    ensures !Exposed(t, ctx, d)
  {
  }

  lemma {:induction false} SettledShorter(ctx: Context, wm: map<Key, Record>, ds: seq<Deliverable>)
    ensures |SettledAll(ctx, wm, ds)| <= |ds|
  {
    if ds != [] { SettledShorter(ctx, wm, ds[..|ds| - 1]); }
  }

  /** The retry pass changes nothing exactly when every retry stays. */
  lemma SettledOne(ctx: Context, wm: map<Key, Record>, d: Deliverable)
    requires ValidContext(ctx)
    ensures var a := Plan(wm, ctx, d, false);
      |Settled(ctx, d, a)| <= 1 && (Settled(ctx, d, a) == [d] <==> a == Stay)
  {
    hide Deletes;
  }

  lemma {:induction false} SettledSame(ctx: Context, wm: map<Key, Record>, ds: seq<Deliverable>)
    requires ValidContext(ctx)
    ensures SettledAll(ctx, wm, ds) == ds <==> forall d :: d in ds ==> Plan(wm, ctx, d, false) == Stay
  {
    hide Plan, Settled, ValidContext;
    if ds != [] {
      var front, d := ds[..|ds| - 1], ds[|ds| - 1];
      SettledSame(ctx, wm, front);
      SettledShorter(ctx, wm, front);
      SettledOne(ctx, wm, d);
      assert ds == front + [d];
      EqualParts(SettledAll(ctx, wm, front), Settled(ctx, d, Plan(wm, ctx, d, false)), front, d);
    }
  }

  lemma EqualParts<T>(f: seq<T>, s: seq<T>, front: seq<T>, d: T)
    requires |f| <= |front| && |s| <= 1
    ensures f + s == front + [d] <==> f == front && s == [d]
  {
    if f + s == front + [d] {
      assert |f| == |front| && |s| == 1;
      assert f == (f + s)[..|front|] && front == (front + [d])[..|front|];
      assert s[0] == (f + s)[|front|];
    }
  }

  /** `--check` never misses a write, and says one is due where there is none only
      for an exposed retry. */
  lemma CheckIsExact(t: Tables, ctx: Context)
    requires ValidContext(ctx)
    ensures WouldWrite(t, ctx) <==> Migrated(t, ctx) != t || exists d :: d in t.deliverables && Exposed(t, ctx, d)
  {
    hide AllFilled, Deletes, Plan, SettledAll, Missing, Exposed, Pairs;
    if t.version >= SCHEMA_VERSION {
      if Fills(t.version) && Missing(t.watermarks) != {} {
        var k :| k in Missing(t.watermarks);
        MissingIff(t.watermarks, k);
        FillAddsExactlyTheMissing(t.watermarks, k);
      } else {
        if Fills(t.version) { FillOfNothing(t.watermarks); }
        FillOfNoKey(AllFilled(t.watermarks));
        SettledSame(ctx, t.watermarks, t.deliverables);
        forall d | d in t.deliverables
          ensures Exposed(t, ctx, d) ==> Plan(t.watermarks, ctx, d, Fills(t.version)) != Stay
          ensures Plan(t.watermarks, ctx, d, false) != Stay ==> Plan(t.watermarks, ctx, d, Fills(t.version)) != Stay
          ensures !Exposed(t, ctx, d) ==>
                  Plan(t.watermarks, ctx, d, false) == Plan(t.watermarks, ctx, d, Fills(t.version))
        {
          PreviewExactIff(t, ctx, d);
          AssumingDeletesMore(t.watermarks, ctx, d);
        }
      }
    }
  }

  lemma AssumingDeletesMore(wm: map<Key, Record>, ctx: Context, d: Deliverable)
    ensures Plan(wm, ctx, d, false) != Stay ==> Plan(wm, ctx, d, true) != Stay
    ensures Plan(wm, ctx, d, true) == Plan(wm, ctx, d, false) || Plan(wm, ctx, d, true) == Delete
  {
  }

  /** One retry `--check` would delete and no migrate ever touches. */
  lemma ExposedRetryExists(k: Key, d: Deliverable, n: int, text: string) returns (t: Tables, ctx: Context)
    requires k.source == "radiod" && PskDest(k.dest) && d.key == k && d.pipeline == OLD_PIPELINE
    ensures d in t.deliverables && ValidContext(ctx) && WouldWrite(t, ctx) && Migrated(t, ctx) == t
  {
    hide PskDest;
    assert |k.source| == 6;
    var wm := map[k := Record(Digits(n, text), 0)];
    t, ctx := Tables(3, wm, {}, [d], {}, true), Context(Some({n}), None);
    LoneRecord(wm, ctx, d, n, text);
    FillOfNothing(wm);
    FillOfNoKey(wm);
    assert t.deliverables[0] == d;
    hide *;
    SettledSame(ctx, wm, t.deliverables);
  }

  lemma LoneRecord(wm: map<Key, Record>, ctx: Context, d: Deliverable, n: int, text: string)
    requires |d.key.source| == 6 && PskDest(d.key.dest) && d.pipeline == OLD_PIPELINE
    requires wm == map[d.key := Record(Digits(n, text), 0)] && ctx == Context(Some({n}), None)
    ensures Plan(wm, ctx, d, true) == Delete && Plan(wm, ctx, d, false) == Stay && Missing(wm) == {}
  {
    hide PskDest;
    forall k ensures k !in OldKeys(wm) {
      if k in wm { assert k == d.key && |k.source| != |OLD_SOURCE|; }
    }
    assert Matching(wm, d.key) == {d.key};
    assert |Key(PSK_SOURCE, d.key.dest, d.key.table).source| != 6;
    assert n in ctx.sink.value;
  }

  // ---- what a migration keeps ---------------------------------------------------------------

  lemma {:induction false} SettledStays(ctx: Context, wm: map<Key, Record>, ds: seq<Deliverable>, d: Deliverable)
    requires ValidContext(ctx) && d in SettledAll(ctx, wm, ds)
    ensures Plan(wm, ctx, d, false) == Stay
  {
    hide Deletes;
    var last := ds[|ds| - 1];
    if d !in Settled(ctx, last, Plan(wm, ctx, last, false)) {
      SettledStays(ctx, wm, ds[..|ds| - 1], d);
    }
  }

  /** Migrating twice is migrating once. */
  lemma MigrateIsIdempotent(t: Tables, ctx: Context)
    requires ValidContext(ctx)
    ensures Migrated(Migrated(t, ctx), ctx) == Migrated(t, ctx)
  {
    hide AllFilled, Deletes, Plan, SettledAll, Missing, Pairs, Successors, OldKeys;
    var u := Migrated(t, ctx);
    NothingMissing(t.watermarks);
    FillOfNoKey(AllFilled(t.watermarks));
    forall d | d in u.deliverables ensures Plan(FinalWatermarks(u), ctx, d, false) == Stay {
      SettledStays(ctx, FinalWatermarks(t), t.deliverables, d);
    }
    SettledSame(ctx, FinalWatermarks(u), u.deliverables);
  }

  /** ... and `--check` after it asks for nothing, but for an exposed retry left behind. */
  lemma CheckAfterMigrate(t: Tables, ctx: Context)
    requires ValidContext(ctx)
    ensures var u := Migrated(t, ctx); WouldWrite(u, ctx) <==> exists d :: d in u.deliverables && Exposed(u, ctx, d)
  {
    hide Migrated, WouldWrite, Exposed;
    MigrateIsIdempotent(t, ctx);
    CheckIsExact(Migrated(t, ctx), ctx);
  }

  /** No send record is changed or dropped; every missing producer key of an old
      record gets that record, whole, at the versions this code knows; nothing
      else is added. */
  lemma RecordsAreKept(t: Tables, ctx: Context, k: Key)
    ensures k in t.watermarks ==>
      k in Migrated(t, ctx).watermarks && Migrated(t, ctx).watermarks[k] == t.watermarks[k]
    ensures k !in t.watermarks && Succeeds(t.watermarks, k) && Fills(FinalVersion(t.version)) ==>
      k in Migrated(t, ctx).watermarks && Migrated(t, ctx).watermarks[k] == t.watermarks[OldOf(k)]
    ensures k !in t.watermarks && !(Succeeds(t.watermarks, k) && Fills(FinalVersion(t.version))) ==>
      k !in Migrated(t, ctx).watermarks
  {
    hide AllFilled, SettledAll, Pairs, Succeeds;
    FillAddsExactlyTheMissing(t.watermarks, k);
  }

  lemma {:induction false} SettledConcat(ctx: Context, wm: map<Key, Record>, a: seq<Deliverable>, b: seq<Deliverable>)
    ensures SettledAll(ctx, wm, a + b) == SettledAll(ctx, wm, a) + SettledAll(ctx, wm, b)
  {
    hide Plan, Settled;
    if b == [] {
      assert a + b == a;
    } else {
      assert (a + b)[..|a + b| - 1] == a + b[..|b| - 1];
      SettledConcat(ctx, wm, a, b[..|b| - 1]);
    }
  }

  /** A sink trimmed oldest first: above a row it still holds, it holds every row. */
  ghost predicate TrimmedOldestFirst(sink: set<int>, ever: set<int>) {
    forall x, y :: x in sink && y in ever && x <= y ==> y in sink
  }

  /** Where a retry of the old pipeline may go: nowhere, to the keeper with every
      other field intact, or away once both producers stand ready to re-read it. */
  ghost predicate Fate(after: Tables, ctx: Context, ever: set<int>, d: Deliverable, fate: seq<Deliverable>) {
    || fate == [d]
    || (d.pipeline == OLD_PIPELINE && ctx.keeper.Some? &&
        fate == [Deliverable(d.id, ctx.keeper.value, d.payload, d.enqueuedAt, d.attempts, d.nextAt,
                             Key(SourceOf(ctx.keeper.value), d.key.dest, d.key.table), d.cursorAfter, d.token)])
    || (d.pipeline == OLD_PIPELINE && fate == [] && exists k :: ReadyToReread(after, ctx, ever, d, k))
  }

  /** `k` is the one record the retry stands for, both producer keys of its
      destination exist, and the sink holds every row past it. */
  ghost predicate ReadyToReread(after: Tables, ctx: Context, ever: set<int>, d: Deliverable, k: Key) {
    && Matching(after.watermarks, d.key) == {k} && BothProducersKnow(after.watermarks, k)
    && after.watermarks[k].cursor.Digits? && ctx.sink.Some?
    && forall id :: id in ever && after.watermarks[k].cursor.n < id ==> id in ctx.sink.value
  }

  lemma FateOf(after: Tables, ctx: Context, ever: set<int>, d: Deliverable)
    requires ctx.sink.Some? ==> TrimmedOldestFirst(ctx.sink.value, ever)
    ensures Fate(after, ctx, ever, d, Settled(ctx, d, Plan(after.watermarks, ctx, d, false)))
  {
    if Plan(after.watermarks, ctx, d, false) == Delete {
      var k := Only(Matching(after.watermarks, d.key));
      assert ReadyToReread(after, ctx, ever, d, k);
    }
  }

  /** Nothing the old pipeline owed is lost: what becomes of the `i`-th retry, in its
      place among the others. */
  lemma NoRetryIsLost(t: Tables, ctx: Context, ever: set<int>, i: nat)
    returns (before: seq<Deliverable>, fate: seq<Deliverable>, after: seq<Deliverable>)
    requires i < |t.deliverables| && (ctx.sink.Some? ==> TrimmedOldestFirst(ctx.sink.value, ever))
    ensures Migrated(t, ctx).deliverables == before + fate + after
    ensures |before| <= i && |after| < |t.deliverables| - i
    ensures Fate(Migrated(t, ctx), ctx, ever, t.deliverables[i], fate)
  {
    hide Plan, Fate, AllFilled, Pairs, TrimmedOldestFirst;
    var wm, ds := FinalWatermarks(t), t.deliverables;
    before, after := SettledAll(ctx, wm, ds[..i]), SettledAll(ctx, wm, ds[i + 1..]);
    fate := Settled(ctx, ds[i], Plan(wm, ctx, ds[i], false));
    assert ds == ds[..i] + [ds[i]] + ds[i + 1..];
    SettledConcat(ctx, wm, ds[..i] + [ds[i]], ds[i + 1..]);
    assert (ds[..i] + [ds[i]])[..i] == ds[..i];
    SettledShorter(ctx, wm, ds[..i]);
    SettledShorter(ctx, wm, ds[i + 1..]);
    FateOf(Migrated(t, ctx), ctx, ever, ds[i]);
  }
}
