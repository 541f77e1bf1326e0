/** One pipeline's pump over its source, its send record and its retry queue
    (core.py), with rows arriving and the process dying between any two
    transactions or transport calls. */
module Delivery {
  import opened Cursors
  import C = Cursors
  import opened Sink
  import opened Selection
  import opened Ledger
  import opened WatermarkStore
  import opened Protocol

  /** The sink's table and the source that reads it (sources/sqlite.py). */
  class SqliteSource {
    const rd: Reader
    const startAtNow: bool
    const deleteOnCommit: bool
    var table: seq<Row>
    var lastId: int          // AUTOINCREMENT: the highest id ever given out
    var anchor: Option<int>  // in memory only
    ghost var ever: seq<Row>

    ghost predicate Valid()
      reads this
    {
      && Sorted(ever) && Sorted(table) && (forall r :: r in table ==> r in ever)
      && forall r :: r in ever ==> r.id <= lastId
    }

    constructor (rd: Reader, startAtNow: bool, deleteOnCommit: bool, table: seq<Row>, lastId: int)
      requires Sorted(table) && forall r :: r in table ==> r.id <= lastId
      ensures Valid() && this.rd == rd && this.startAtNow == startAtNow && this.deleteOnCommit == deleteOnCommit
      ensures this.table == table && ever == table && anchor == None
    {
      this.rd, this.startAtNow, this.deleteOnCommit := rd, startAtNow, deleteOnCommit;
      this.table, this.lastId, ever, anchor := table, lastId, table, None;
    }

    /** Rows a producer may append next: ids above every id ever given out. */
    predicate Accepts(more: seq<Row>)
      reads this
    {
      Sorted(more) && (more != [] ==> lastId < more[0].id)
    }

    /** Producers append rows: any number, any content. */
    method Arrive(more: seq<Row>)
      requires Valid() && Accepts(more)
      modifies this`table, this`ever, this`lastId
      ensures Valid() && table == old(table) + more && ever == old(ever) + more && Fresh(old(ever), more)
    {
      hide Sorted;
      Appends(table, lastId, more);
      Appends(ever, lastId, more);
      if more != [] { lastId := more[|more| - 1].id; }
      table := table + more;
      ever := ever + more;
    }

    /** An id of a row in scope, or 0. */
    predicate Stands(id: int)
      reads this`table
    {
      id == 0 || exists i :: 0 <= i < |table| && InScope(rd, table[i]) && table[i].id == id
    }

    /** `_present_position`: the highest id in scope, 0 on an empty queue. */
    method PresentPosition() returns (id: int)
      requires Valid()
      ensures Past(rd, table, id) == [] && Stands(id)
    {
      id := 0;
      for i := 0 to |table|
        invariant Past(rd, table[..i], id) == [] && Stands(id)
      {
        assert table[..i + 1][..i] == table[..i];
        if InScope(rd, table[i]) && (id < table[i].id) {
          NothingPastHigher(rd, table[..i], id, table[i].id);
          id := table[i].id;
        }
      }
      assert table[..|table|] == table;
    }

    /** `_cursor_from_start_at`: fixed at its first evaluation. */
    method CursorFromStartAt() returns (id: int)
      requires Valid()
      modifies this`anchor
      ensures anchor == Some(id)
      ensures old(anchor).Some? ==> anchor == old(anchor)
      ensures old(anchor).None? ==> Past(rd, table, id) == [] && Stands(id)
    {
      if anchor.None? {
        var p := PresentPosition();
        anchor := Some(p);
      }
      id := anchor.value;
    }

    method IterBatches(cursor: Cursor, limit: int) returns (cur: int, batch: Option<Batch>)
      requires Valid() && (cursor.Blank? || cursor.Digits?)
      modifies this`anchor
      ensures Valid()
      ensures if cursor.Blank? && startAtNow
              then anchor == Some(cur) && (old(anchor).Some? ==> anchor == old(anchor))
                && (old(anchor).None? ==> Past(rd, table, cur) == [] && Stands(cur))
              else cur == AsInt(cursor) && anchor == old(anchor)
      ensures batch.None? <==> Query(rd, table, cur, limit) == []
      ensures batch.Some? ==>
        && cur < batch.value.cursorAfter == batch.value.token
        && batch.value.records == Records(Between(rd, table, cur, batch.value.cursorAfter))
        && (exists r :: r in table && r.id == batch.value.cursorAfter)
        && (limit >= 0 ==> |batch.value.records| <= limit)
    {
      cur := AsInt(cursor);
      if cursor.Blank? && startAtNow {
        cur := CursorFromStartAt();
      }
      batch := IterOneBatch(rd, table, cur, limit);
      if batch.Some? { FewerRecords(Query(rd, table, cur, limit)); }
    }

    /** Delete the acked rows, when the source deletes and the token reads. */
    method Commit(token: Cursor)
      requires Valid()
      modifies this`table
      ensures Valid()
      ensures table == if deleteOnCommit && token.Digits? then Committed(rd, old(table), token.n) else old(table)
    {
      if token.Digits? && deleteOnCommit {
        CommittedSorted(rd, table, token.n);
        table := Committed(rd, table, token.n);
      }
    }

    /** The process dies: the anchor lived in memory. */
    method Restart()
      modifies this`anchor
      ensures anchor == None
    {
      anchor := None;
    }
  }

  /** Rows with ids above every id given out extend a sorted table. */
  lemma Appends(rows: seq<Row>, lastId: int, more: seq<Row>)
    requires Sorted(rows) && (forall r :: r in rows ==> r.id <= lastId)
    requires Sorted(more) && (more != [] ==> lastId < more[0].id)
    ensures Sorted(rows + more) && Fresh(rows, more)
    ensures forall r :: r in rows + more <==> r in rows || r in more
    ensures forall r :: r in rows + more ==> r.id <= if more != [] then more[|more| - 1].id else lastId
  {
    assert forall i :: 0 <= i < |rows| ==> rows[i] in rows;
    if more != [] {
      forall r | r in more ensures more[0].id <= r.id <= more[|more| - 1].id {
        var i :| 0 <= i < |more| && more[i] == r;
      }
      assert forall i :: 0 <= i < |more| ==> more[i] in more;
    }
  }

  lemma {:induction false} NothingPastHigher(rd: Reader, rows: seq<Row>, lo: int, hi: int)
    requires lo <= hi && Past(rd, rows, lo) == []
    ensures Past(rd, rows, hi) == []
  {
    if rows != [] {
      NothingPastHigher(rd, rows[..|rows| - 1], lo, hi);
    }
  }

  lemma {:induction false} FewerRecords(rows: seq<Row>)
    ensures |Records(rows)| <= |rows|
  {
    if rows != [] {
      FewerRecords(rows[..|rows| - 1]);
    }
  }

  /** Why a pump leaves the due retries. */
  datatype Stop = Held | Died | Failing | NoneDue

  /** How far a pump gets: the gate holds it, a retry makes the source wait, or it reads. */
  datatype Stage = HeldBack | SourceWaits | SourceRead

  /** All the destination may have taken is the one retry that was queued. */
  ghost predicate OnlyTheRetry(before: seq<seq<Row>>, after: seq<seq<Row>>, queue: seq<Deliverable>) {
    after == before || (queue != [] && after == before + [queue[0].payload])
  }

  lemma SameFaults(faults: set<Fault>)
    ensures forall may :: Grown(faults, faults, false, may)
  {
  }

  lemma HoldsHand(c: Config, s: State, r: Deliverable)
    requires r.cursorAfter.Digits? && InHand(c, s, r.payload, r.cursorAfter.n)
    ensures Holding(c, s, Some(Batch(r.payload, r.cursorAfter.n, r.cursorAfter.n)))
  {
  }

  lemma HandHeld(c: Config, s: State, r: Deliverable)
    requires r.cursorAfter.Digits? && Holding(c, s, Some(Batch(r.payload, r.cursorAfter.n, r.cursorAfter.n)))
    ensures InHand(c, s, r.payload, r.cursorAfter.n)
  {
  }

  // ---- the pipeline --------------------------------------------------------------------

  function OrElse(s: string, default: string): string {
    if s == "" then default else s
  }

  class Pipeline {
    const name: string
    const key: Key
    const retry: RetryPolicy
    const limit: int           // min(batch_limit, the transport's max_records)
    const budget: Option<int>  // max_records_per_pump
    const around: Surroundings // what may happen to a run
    const store: Store
    const source: SqliteSource

    ghost const recorded: bool
    ghost var start: int
    ghost var reached: Option<int>           // where the record stands; None before the first anchor
    ghost var acked: seq<seq<Row>>
    ghost var faults: set<Fault>
    ghost var origin: map<nat, Deliverable>
    ghost var replays: map<nat, nat>

    ghost function Cfg(): Config
    {
      Config(source.rd, source.startAtNow, source.deleteOnCommit, key, retry, recorded)
    }

    ghost function Now(): State
      reads this, store, source
    {
      State(Ledger(source.ever, source.table, start, if reached.Some? then reached.value else start, acked),
            reached.Some?, faults, QueueOf(store.deliverables, name), store.GetCursor(key), source.anchor,
            origin, replays, store.nextId)
    }

    /** Between two transactions, with `ahead` taken but not yet recorded. */
    ghost predicate Running(ahead: seq<Row>)
      reads this, store, source
    {
      && store.Valid() && source.Valid() && Base(Cfg(), Now()) && Tally(Cfg(), Now(), ahead)
      && key.source != "" && key.dest != "" && key.table != ""
      && (store.GetCursor(key).Blank? || store.GetCursor(key).Digits?) && Allowed(around, faults)
    }

    constructor (name: string, key: Key, retry: RetryPolicy, limit: int, budget: Option<int>, around: Surroundings, store: Store,
                 source: SqliteSource)
      requires store.Valid() && source.Valid() && source.table == source.ever && source.anchor == None
      requires store.GetCursor(key).Blank? || store.GetCursor(key).Digits?
      requires QueueOf(store.deliverables, name) == []
      requires key.source != "" && key.dest != "" && key.table != ""
      ensures Running([]) && faults == {} && acked == [] && this.store == store && this.source == source
      ensures recorded == store.GetCursor(key).Digits?
      ensures this.name == name && this.key == key && this.retry == retry && this.limit == limit && this.budget == budget
      ensures this.around == around
    {
      this.name, this.key, this.retry, this.limit, this.budget, this.around := name, key, retry, limit, budget, around;
      this.store, this.source := store, source;
      acked, faults, origin, replays := [], {}, map[], map[];
      var c := store.GetCursor(key);
      start := AsInt(c);
      recorded := c.Digits?;
      reached := if c.Digits? then Some(c.n) else if source.startAtNow then None else Some(0);
      new;
      InitialHolds(Cfg(), source.table, c, store.nextId);
      assert Now() == Initial(Cfg(), source.table, c, store.nextId);
    }

    /** Between two transactions: rows arrive, and the process may die. `hand`:
        the batch in hand, if any. */
    method Interlude(ghost ahead: seq<Row>, ghost hand: Option<Batch>) returns (died: bool)
      requires Running(ahead) && Holding(Cfg(), Now(), hand)
      modifies this`faults, source`table, source`ever, source`lastId, source`anchor
      ensures Running(if died then [] else ahead) && Holding(Cfg(), Now(), hand)
      ensures if died then faults == old(faults) + {Crash}
              else faults == old(faults) && source.anchor == old(source.anchor)
    {
      hide *;
      var more: seq<Row> := *;
      if source.Accepts(more) { Append(more, ahead, hand); }
      died := *;
      died := died && around.crashes;
      if died { Die(ahead, hand); }
    }

    method Append(more: seq<Row>, ghost ahead: seq<Row>, ghost hand: Option<Batch>)
      requires Running(ahead) && Holding(Cfg(), Now(), hand) && source.Accepts(more)
      modifies source`table, source`ever, source`lastId
      ensures Running(ahead) && Holding(Cfg(), Now(), hand)
    {
      hide Base, Tally, InHand, Holding, QueueOf, Sorted, Fresh;
      ghost var s := Now();
      source.Arrive(more);
      ArriveKeeps(Cfg(), s, more, ahead);
      ArriveKeepsHeld(Cfg(), s, more, hand);
      assert Now() == s.(books := Arrived(s.books, more));
    }

    method Die(ghost ahead: seq<Row>, ghost hand: Option<Batch>)
      requires Running(ahead) && Holding(Cfg(), Now(), hand) && around.crashes
      modifies this`faults, source`anchor
      ensures Running([]) && Holding(Cfg(), Now(), hand) && faults == old(faults) + {Crash}
    {
      hide Base, Tally, InHand, Holding, QueueOf;
      ghost var s := Now();
      CrashKeeps(Cfg(), s, [], hand);
      faults := faults + {Crash};
      source.Restart();
      assert Now() == s.(faults := s.faults + {Crash}, anchor := None);
    }

    /** `_advance` on this pipeline's own key. */
    method MoveRecord(k: Key, n: int, ts: int) returns (result: Advance)
      requires k == key && (store.GetCursor(key).Blank? || store.GetCursor(key).Digits?) && reached.Some?
      modifies store`watermarks, this`reached, this`faults
      ensures Now() == Moved(old(Now()), n, Decimal(n)) && store.Valid() == old(store.Valid())
    {
      ghost var s := Now();
      MovedIsAdvance(s, store.Stored(key), n, Decimal(n), ts);
      result := store.AdvanceCursor(k, Digits(n, Decimal(n)), ts, ById);
      faults := Moved(s, n, Decimal(n)).faults;
      reached := Some(Moved(s, n, Decimal(n)).books.pos);
    }

    /** The tail of an ack: the record moves, then the source deletes. */
    method AckBatch(k: Key, hand: Batch, ts: int) returns (died: bool)
      requires k == key && hand.token == hand.cursorAfter
      requires Running(hand.records) && InHand(Cfg(), Now(), hand.records, hand.cursorAfter) && Now().queue == [] && reached.Some?
      requires forall r :: r in hand.records ==> r in Flat(acked)
      modifies this`faults, this`reached, store`watermarks, source`table, source`ever, source`lastId, source`anchor
      ensures Running([]) && Now().queue == [] && reached.Some?
      ensures !died && PartialCut !in faults && Reanchor !in faults ==> reached == Some(hand.cursorAfter)
      ensures faults == if died then old(faults) + {Crash} else old(faults)
    {
      hide *;
      died := RecordAck(k, hand, ts);
      if died { return; }
      died := DeleteAcked(hand.token);
    }

    /** The record moves to the end of the batch in hand. */
    method RecordAck(k: Key, hand: Batch, ts: int) returns (died: bool)
      requires k == key
      requires Running(hand.records) && InHand(Cfg(), Now(), hand.records, hand.cursorAfter) && Now().queue == [] && reached.Some?
      requires forall r :: r in hand.records ==> r in Flat(acked)
      modifies this`faults, this`reached, store`watermarks, source`table, source`ever, source`lastId, source`anchor
      ensures Running([]) && Now().queue == [] && reached.Some?
      ensures Kept(Now()) ==> Now().books.pos == hand.cursorAfter
      ensures PartialCut !in faults && Reanchor !in faults ==> reached == Some(hand.cursorAfter)
      ensures faults == if died then old(faults) + {Crash} else old(faults)
    {
      hide Base, Tally, InHand, Committed, QueueOf;
      ghost var s := Now();
      AckMoves(Cfg(), s, hand.records, hand.cursorAfter, Decimal(hand.cursorAfter));
      var _ := MoveRecord(k, hand.cursorAfter, ts);
      died := Interlude([], None);
    }

    /** What the record has passed is deleted, when the source deletes. */
    method DeleteAcked(token: int) returns (died: bool)
      requires Running([]) && Now().queue == [] && reached.Some?
      requires Kept(Now()) ==> Now().books.pos == token
      modifies this`faults, source`table, source`ever, source`lastId, source`anchor
      ensures Running([]) && Now().queue == []
      ensures faults == if died then old(faults) + {Crash} else old(faults)
    {
      hide Base, Tally, InHand, Committed, QueueOf;
      ghost var s := Now();
      DeleteKeeps(Cfg(), s, token);
      source.Commit(Digits(token, Decimal(token)));
      assert Now() == Deleted(Cfg(), s, token);
      died := Interlude([], None);
    }

    /** The tail of a partial ack: the record moves to the accepted point, but the
        whole token commits. */
    method PartialAckBatch(hand: Batch, a: int, ghost taken: seq<Row>, ts: int) returns (died: bool)
      requires hand.token == hand.cursorAfter && around.partialAcks
      requires Running(taken) && Now().queue == [] && reached.Some?
      requires Kept(Now()) ==> if Now().books.pos < a then InHand(Cfg(), Now(), taken, a) else taken == []
      requires forall r :: r in taken ==> r in Flat(acked)
      modifies this`faults, this`reached, store`watermarks, source`table, source`ever, source`lastId, source`anchor
      ensures Running([]) && Now().queue == []
      ensures Grown(old(faults), faults, died, {PartialCut})
    {
      hide Running, InHand, Kept, Cuts, Cfg, Now;
      died := RecordPartial(a, taken, ts);
      if died { return; }
      died := DeleteWholeToken(hand.token);
    }

    method RecordPartial(a: int, ghost taken: seq<Row>, ts: int) returns (died: bool)
      requires Running(taken) && Now().queue == [] && reached.Some? && around.partialAcks
      requires Kept(Now()) ==> if Now().books.pos < a then InHand(Cfg(), Now(), taken, a) else taken == []
      requires forall r :: r in taken ==> r in Flat(acked)
      modifies this`faults, this`reached, store`watermarks, source`table, source`ever, source`lastId, source`anchor
      ensures Running([]) && Now().queue == [] && reached.Some?
      ensures Grown(old(faults), faults, died, {PartialCut})
    {
      hide Base, Tally, InHand, Committed, QueueOf;
      ghost var s := Now();
      PartialMoves(Cfg(), s, taken, a, Decimal(a));
      var _ := MoveRecord(key, a, ts);
      died := Interlude([], None);
    }

    /** The whole token is committed; a fault exactly when rows the record has not
        passed go with it. */
    method DeleteWholeToken(token: int) returns (died: bool)
      requires around.partialAcks && Running([]) && Now().queue == [] && reached.Some?
      modifies this`faults, source`table, source`ever, source`lastId, source`anchor
      ensures Running([]) && Now().queue == []
      ensures faults == old(faults) + (if Cuts(Cfg(), old(Now()), token) then {PartialCut} else {}) + if died then {Crash} else {}
    {
      hide Base, Tally, InHand, Committed, QueueOf, Cuts, Allowed;
      CommitToken(token);
      died := Interlude([], None);
    }

    method CommitToken(token: int)
      requires around.partialAcks && Running([]) && Now().queue == [] && reached.Some?
      modifies this`faults, source`table
      ensures Running([]) && Now().queue == []
      ensures faults == old(faults) + if Cuts(Cfg(), old(Now()), token) then {PartialCut} else {}
    {
      hide Base, Tally, InHand, Committed, QueueOf, Cuts;
      ghost var s := Now();
      CutDeleteKeeps(Cfg(), s, token);
      source.Commit(Digits(token, Decimal(token)));
      faults := CutDeleted(Cfg(), s, token).faults;
      assert Now() == CutDeleted(Cfg(), s, token);
    }

    /** A first attempt that must be retried: one retry, and only one, is queued. */
    method EnqueueBatch(hand: Batch, ts: int) returns (died: bool)
      requires hand.token == hand.cursorAfter
      requires Running([]) && InHand(Cfg(), Now(), hand.records, hand.cursorAfter) && Now().queue == [] && reached.Some?
      modifies this`faults, this`origin, this`replays, store`deliverables, store`nextId
      modifies source`table, source`ever, source`lastId, source`anchor
      ensures Running([]) && |Now().queue| == 1
      ensures Grown(old(faults), faults, died, {})
    {
      hide Base, Tally, InHand, Committed, QueueOf;
      ghost var s := Now();
      var c := Digits(hand.cursorAfter, Decimal(hand.cursorAfter));
      var id := store.Enqueue(name, hand.records, ts, ts + DelayFor(retry, 0), key, c, c);
      ghost var d := Deliverable(id, name, hand.records, ts, 0, ts + DelayFor(retry, 0), key, c, c);
      EnqueueKeeps(Cfg(), s, d);
      origin := origin[id := d];
      replays := replays[id := 0];
      assert Now() == Enqueued(s, d);
      died := Interlude([], None);
    }

    /** `_handle_first_attempt`. */
    method HandleFirstAttempt(hand: Batch, outcome: Outcome, ghost taken: seq<Row>, now: int) returns (died: bool)
      requires hand.token == hand.cursorAfter && Running(taken) && Now().queue == [] && reached.Some?
      requires if outcome.PartialAck? then around.partialAcks else InHand(Cfg(), Now(), hand.records, hand.cursorAfter)
      requires taken == (if outcome.Acked? then hand.records else if outcome.PartialAck? then taken else [])
      requires outcome.PartialAck? && Kept(Now()) ==>
        if Now().books.pos < Accepted(outcome, hand) then InHand(Cfg(), Now(), taken, Accepted(outcome, hand))
        else taken == []
      requires forall r :: r in taken ==> r in Flat(acked)
      modifies this`faults, this`reached, this`origin, this`replays, store`watermarks, store`deliverables, store`nextId
      modifies store`deadLetters, source`table, source`ever, source`lastId, source`anchor
      ensures Running([])
      ensures Grown(old(faults), faults, died, if outcome.PartialAck? then {PartialCut} else {})
      ensures if outcome.RetryLater? then |Now().queue| == 1 else Now().queue == []
      ensures store.deadLetters == old(store.deadLetters)
              + if outcome.Permanent? then [DeadLetter(now, name, hand.records, "permanent_failure")] else []
    {
      hide Base, Tally, InHand, Committed;
      match outcome {
        case Acked =>
          died := AckBatch(key, hand, now);
        case PartialAck(_) =>
          died := PartialAckBatch(hand, Accepted(outcome, hand), taken, now);
        case RetryLater =>
          died := EnqueueBatch(hand, now);
        case Permanent =>
          store.SendToDeadLetter(now, name, hand.records, "permanent_failure");
          died := Interlude([], None);
      }
    }

    // ---- replays ---------------------------------------------------------------------

    /** Claim this pipeline's due retry. */
    method PopRetry(now: int) returns (popped: Option<Deliverable>)
      requires Running([])
      modifies store`deliverables
      ensures Running([])
      ensures popped.None? ==> Now() == old(Now()) && forall d :: d in store.deliverables ==> !Due(d, name, now)
      ensures popped.Some? ==>
        && Now() == old(Now()).(queue := []) && old(Now()).queue == [popped.value]
        && popped.value.id < store.nextId && (forall q :: q in store.deliverables ==> q.id != popped.value.id)
        && popped.value.pipeline == name
    {
      hide Base, Tally, QueueOf;
      ghost var s := Now();
      ClaimKeeps(Cfg(), s);
      popped := store.PopDue(name, now);
      if popped.Some? {
        assert s.queue == [popped.value] && Now().queue == [];
        assert Now() == s.(queue := []);
      }
    }

    /** Put a claimed retry back, one attempt on. */
    method RequeueRetry(d: Deliverable, nextAt: int)
      requires Running([]) && Now().queue == [] && d.pipeline == name && d.id < store.nextId
      requires forall q :: q in store.deliverables ==> q.id != d.id
      requires Base(Cfg(), Requeued(Now(), d.(attempts := d.attempts + 1, nextAt := nextAt)))
      requires Tally(Cfg(), Requeued(Now(), d.(attempts := d.attempts + 1, nextAt := nextAt)), [])
      modifies store`deliverables
      ensures Running([]) && Now().queue == [d.(attempts := d.attempts + 1, nextAt := nextAt)]
    {
      hide Base, Tally, QueueOf;
      ghost var s := Now();
      var d' := d.(attempts := d.attempts + 1, nextAt := nextAt);
      store.Requeue(d');
      assert Now() == Requeued(s, d');
    }

    /** `_handle_outcome`, for a retry this pipeline queued and just replayed. */
    method HandleOutcome(d: Deliverable, outcome: Outcome, now: int) returns (died: bool)
      requires Running(if outcome.Acked? then d.payload else []) && Now().queue == [] && reached.Some?
      requires outcome.PartialAck? ==> PartialReplay in faults
      requires d.key == key && d.cursorAfter.Digits? && d.token == d.cursorAfter
      requires InHand(Cfg(), Now(), d.payload, d.cursorAfter.n)
      requires outcome.Acked? ==> forall r :: r in d.payload ==> r in Flat(acked)
      requires d.pipeline == name && d.id < store.nextId && forall q :: q in store.deliverables ==> q.id != d.id
      requires Counted(origin, replays, d.(attempts := d.attempts + 1), ReplayLimit(retry) + 1)
      modifies this`faults, this`reached, store`watermarks, store`deliverables
      modifies store`deadLetters, source`table, source`ever, source`lastId, source`anchor
      ensures Running([])
      ensures Grown(old(faults), faults, died, {})
      ensures if outcome.RetryLater? && d.attempts + 1 < retry.maxAttempts
              then Now().queue == [d.(attempts := d.attempts + 1, nextAt := now + DelayFor(retry, d.attempts + 1))]
              else Now().queue == []
      ensures store.deadLetters == old(store.deadLetters)
              + if outcome.Permanent? then [DeadLetter(now, name, d.payload, "permanent_failure")]
                else if outcome.RetryLater? && retry.maxAttempts <= d.attempts + 1
                then [DeadLetter(now, name, d.payload, "max_attempts")] else []
    {
      hide Base, Tally, InHand, Committed, QueueOf;
      match outcome {
        case Acked =>
          var hand := Batch(d.payload, d.cursorAfter.n, d.cursorAfter.n);
          var k := Key(OrElse(d.key.source, key.source), OrElse(d.key.dest, key.dest), OrElse(d.key.table, key.table));
          died := AckBatch(k, hand, now);
        case RetryLater =>
          RetryOrGiveUp(d, now);
          died := Interlude([], None);
        case Permanent =>
          store.SendToDeadLetter(now, name, d.payload, "permanent_failure");
          died := Interlude([], None);
        case PartialAck(_) =>
          died := Interlude([], None);
      }
    }

    /** The destination failed again. */
    method RetryOrGiveUp(d: Deliverable, now: int)
      requires Running([]) && Now().queue == [] && reached.Some?
      requires d.key == key && d.cursorAfter.Digits? && d.token == d.cursorAfter
      requires InHand(Cfg(), Now(), d.payload, d.cursorAfter.n)
      requires d.pipeline == name && d.id < store.nextId && forall q :: q in store.deliverables ==> q.id != d.id
      requires Counted(origin, replays, d.(attempts := d.attempts + 1), ReplayLimit(retry) + 1)
      modifies store`deliverables, store`deadLetters
      ensures Running([])
      ensures if d.attempts + 1 < retry.maxAttempts
              then Now().queue == [d.(attempts := d.attempts + 1, nextAt := now + DelayFor(retry, d.attempts + 1))]
              else Now().queue == []
      ensures store.deadLetters == old(store.deadLetters)
              + if retry.maxAttempts <= d.attempts + 1 then [DeadLetter(now, name, d.payload, "max_attempts")] else []
    {
      hide Base, Tally, InHand, QueueOf;
      if d.attempts + 1 >= retry.maxAttempts {
        ghost var s := Now();
        store.SendToDeadLetter(now, name, d.payload, "max_attempts");
        assert Now() == s;
      } else {
        RequeueKeeps(Cfg(), Now(), d, now + DelayFor(retry, d.attempts + 1));
        RequeueRetry(d, now + DelayFor(retry, d.attempts + 1));
      }
    }

    /** The transport replays a claimed retry; what it takes enters the log. */
    method Replay(r: Deliverable, ghost hand: Option<Batch>) returns (outcome: Outcome)
      requires Running([]) && Now().queue == [] && reached.Some? && Counted(origin, replays, r, ReplayLimit(retry))
      requires r.cursorAfter.Digits? && hand == Some(Batch(r.payload, r.cursorAfter.n, r.cursorAfter.n))
      requires Holding(Cfg(), Now(), hand)
      modifies this`faults, this`acked, this`replays
      ensures Running(if outcome.Acked? then r.payload else []) && Holding(Cfg(), Now(), hand)
      ensures Counted(origin, replays, r.(attempts := r.attempts + 1), ReplayLimit(retry) + 1)
      ensures faults == old(faults) + if outcome.PartialAck? then {PartialReplay} else {}
      ensures acked == old(acked) + if outcome.Acked? || outcome.PartialAck? then [r.payload] else []
      ensures outcome.Acked? ==> forall row :: row in r.payload ==> row in Flat(acked)
    {
      hide Base, Tally, InHand, Committed, QueueOf;
      outcome := Answer();
      CountReplay(r, hand);
      if outcome.Acked? || outcome.PartialAck? {
        LogTaken(hand.value);
        if outcome.PartialAck? { NotePartialReplay(hand); }
      }
    }

    /** What a transport answers. */
    method Answer() returns (outcome: Outcome)
      ensures outcome.PartialAck? ==> around.partialAcks
    {
      outcome := *;
      if outcome.PartialAck? && !around.partialAcks { outcome := Acked; }
    }

    ghost method CountReplay(r: Deliverable, hand: Option<Batch>)
      requires Running([]) && Now().queue == [] && Counted(origin, replays, r, ReplayLimit(retry))
      requires r.cursorAfter.Digits? && hand == Some(Batch(r.payload, r.cursorAfter.n, r.cursorAfter.n))
      requires Holding(Cfg(), Now(), hand)
      modifies this`replays
      ensures Running([]) && Now().queue == [] && Holding(Cfg(), Now(), hand)
      ensures Counted(origin, replays, r.(attempts := r.attempts + 1), ReplayLimit(retry) + 1)
    {
      hide Base, Tally, InHand, QueueOf;
      var s := Now();
      CountOneMore(Cfg(), s, r);
      replays := replays[r.id := replays[r.id] + 1];
      assert Now() == Replayed(s, r);
    }

    /** The destination takes the whole batch in hand. */
    ghost method LogTaken(hand: Batch)
      requires Running([]) && Holding(Cfg(), Now(), Some(hand))
      modifies this`acked
      ensures Running(hand.records) && Holding(Cfg(), Now(), Some(hand))
      ensures acked == old(acked) + [hand.records] && forall row :: row in hand.records ==> row in Flat(acked)
    {
      hide Base, Tally, InHand, QueueOf;
      var s := Now();
      HandTaken(Cfg(), s, hand);
      acked := acked + [hand.records];
      assert Now() == Taken(s, hand.records);
    }

    ghost method NotePartialReplay(hand: Option<Batch>)
      requires around.partialAcks && Holding(Cfg(), Now(), hand)
      requires store.Valid() && Base(Cfg(), Now()) && exists ahead :: Running(ahead)
      modifies this`faults
      ensures Running([]) && Holding(Cfg(), Now(), hand) && faults == old(faults) + {PartialReplay}
    {
      hide InHand, QueueOf;
      PartialReplayKeeps(Cfg(), Now(), hand);
      faults := faults + {PartialReplay};
    }

    /** Claim, replay and settle one due retry. */
    method ReplayOne(now: int) returns (popped: bool, failing: bool, died: bool)
      requires Running([])
      modifies this`faults, this`reached, this`acked, this`replays, store`watermarks, store`deliverables
      modifies store`deadLetters, source`table, source`ever, source`lastId, source`anchor
      ensures Running([]) && Grown(old(faults), faults, died, {PartialReplay})
      ensures !popped ==> Now().queue == old(Now().queue) && acked == old(acked) && !failing && !died
      ensures !popped ==> forall d :: d in store.deliverables ==> !Due(d, name, now)
      ensures popped ==> old(|Now().queue|) == 1
      ensures popped && !failing ==> Now().queue == []
      ensures OnlyTheRetry(old(acked), acked, old(Now().queue))
    {
      hide Base, Tally, InHand, Committed, QueueOf, Counted;
      popped, failing, died := false, false, false;
      var d := PopRetry(now);
      if d.None? { return; }
      popped := true;
      var r := d.value;
      ClaimedFields(Cfg(), old(Now()), r);
      failing, died := ReplayClaimed(r, now);
    }

    method ReplayClaimed(r: Deliverable, now: int) returns (failing: bool, died: bool)
      requires Running([]) && Now().queue == [] && reached.Some? && Counted(origin, replays, r, ReplayLimit(retry))
      requires r.key == key && r.cursorAfter.Digits? && r.token == r.cursorAfter && InHand(Cfg(), Now(), r.payload, r.cursorAfter.n)
      requires r.pipeline == name && r.id < store.nextId && forall q :: q in store.deliverables ==> q.id != r.id
      modifies this`faults, this`reached, this`acked, this`replays, store`watermarks, store`deliverables
      modifies store`deadLetters, source`table, source`ever, source`lastId, source`anchor
      ensures Running([]) && Grown(old(faults), faults, died, {PartialReplay}) && |Now().queue| <= 1
      ensures !failing ==> Now().queue == []
      ensures acked == old(acked) || acked == old(acked) + [r.payload]
    {
      hide Base, Tally, InHand, Committed, QueueOf, Counted, Running, Holding;
      failing := false;
      ghost var hand := Some(Batch(r.payload, r.cursorAfter.n, r.cursorAfter.n));
      HoldsHand(Cfg(), Now(), r);
      died := Interlude([], hand);
      if died { return; }
      var outcome := Replay(r, hand);
      died := Interlude(if outcome.Acked? then r.payload else [], hand);
      if died { return; }
      HandHeld(Cfg(), Now(), r);
      died := HandleOutcome(r, outcome, now);
      failing := outcome.RetryLater?;
    }

    /** Time passes, and then a due retry is taken, if there is one. */
    method ReplayNext(now: int) returns (popped: bool, failing: bool, died: bool)
      requires Running([])
      modifies this`faults, this`reached, this`acked, this`replays, store`watermarks, store`deliverables
      modifies store`deadLetters, source`table, source`ever, source`lastId, source`anchor
      ensures Running([]) && Grown(old(faults), faults, died, {PartialReplay})
      ensures !died && !popped ==> forall d :: d in store.deliverables ==> !Due(d, name, now)
      ensures popped && !failing && !died ==> Now().queue == [] && old(Now().queue) != []
      ensures !popped ==> Now().queue == old(Now().queue) && acked == old(acked)
      ensures OnlyTheRetry(old(acked), acked, old(Now().queue))
      ensures failing ==> popped
    {
      hide Base, Tally, QueueOf;
      popped, failing := false, false;
      died := Interlude([], None);
      if died { return; }
      popped, failing, died := ReplayOne(now);
    }

    /** `_drain_deliverables`: due retries, until one fails or none is due. */
    method DrainDeliverables(now: int) returns (attempted: bool, died: bool, stop: Stop)
      requires Running([])
      modifies this`faults, this`reached, this`acked, this`replays, store`watermarks, store`deliverables
      modifies store`deadLetters, source`table, source`ever, source`lastId, source`anchor
      ensures Running([]) && Grown(old(faults), faults, died, {PartialReplay})
      ensures stop == Died <==> died
      ensures stop == NoneDue ==> forall d :: d in store.deliverables ==> !Due(d, name, now)
      ensures stop == Failing ==> attempted
      ensures OnlyTheRetry(old(acked), acked, old(Now().queue))
    {
      attempted, died := false, false;
      while true
        invariant Running([]) && !died && Grown(old(faults), faults, false, {PartialReplay})
        invariant OnlyTheRetry(old(acked), acked, old(Now().queue))
        invariant Now().queue == [] || (Now().queue == old(Now().queue) && acked == old(acked))
        decreases |Now().queue|
      {
        hide Running, Now;
        var may: bool := *;  // the gate answers
        if !may { return attempted, false, Held; }
        var popped, failing;
        popped, failing, died := ReplayNext(now);
        if died { return attempted, true, Died; }
        if !popped { return attempted, false, NoneDue; }
        attempted := true;
        if failing { return attempted, false, Failing; }
      }
    }

    // ---- the source ------------------------------------------------------------------

    /** One read of the source; a blank record is anchored by it. */
    method ReadSource() returns (batch: Option<Batch>)
      requires Running([]) && Now().queue == []
      modifies this`faults, this`start, this`reached, source`anchor
      ensures Running([]) && Now().queue == [] && reached.Some? && Grown(old(faults), faults, false, {Reanchor})
      ensures batch.None? ==> Query(source.rd, source.table, reached.value, limit) == []
      ensures batch.Some? ==>
        && InHand(Cfg(), Now(), batch.value.records, batch.value.cursorAfter)
        && batch.value.token == batch.value.cursorAfter && (limit >= 0 ==> |batch.value.records| <= limit)
    {
      hide Base, Tally, InHand, QueueOf, Records, Between, Past, Query, Selected, InScope, Sorted, Allowed, Grown, Anchored;
      var cursor := store.GetCursor(key);
      ghost var s := Now();
      var cur;
      cur, batch := source.IterBatches(cursor, limit);
      if cursor.Blank? && source.startAtNow {
        NoteAnchor(s, cur);
      } else {
        assert Now() == s;
        SameFaults(faults);
      }
      ReadsAtTheRecord(Cfg(), Now(), cur);
      if batch.Some? {
        ReadInHand(Cfg(), Now(), batch.value);
      }
    }

    /** The source fixed where a blank record starts. */
    ghost method NoteAnchor(s: State, cur: int)
      requires store.Valid() && source.Valid() && key.source != "" && key.dest != "" && key.table != "" && Allowed(around, faults)
      requires Base(Cfg(), s) && Tally(Cfg(), s, []) && s.cursor.Blank? && source.startAtNow && s.queue == []
      requires (s.anchor.Some? ==> cur == s.anchor.value) && Now() == s.(anchor := Some(cur))
      modifies this`faults, this`start, this`reached
      ensures Running([]) && Now() == Anchored(s, cur).(anchor := Some(cur)) && Grown(old(faults), faults, false, {Reanchor})
    {
      hide Base, Tally, QueueOf;
      AnchorKeeps(Cfg(), s, cur);
      var s' := Anchored(s, cur);
      start, reached, faults := s'.books.start, Some(s'.books.pos), s'.faults;
      assert Now() == s'.(anchor := Some(cur));
    }

    /** The record is read, time passes, and then the source's next batch. */
    method NextBatch() returns (batch: Option<Batch>, died: bool)
      requires Running([]) && Now().queue == []
      modifies this`faults, this`start, this`reached, source`table, source`ever, source`lastId, source`anchor
      ensures Running([]) && Now().queue == [] && Grown(old(faults), faults, died, {Reanchor}) && (died ==> batch.None?)
      ensures batch.Some? ==>
        && reached.Some? && InHand(Cfg(), Now(), batch.value.records, batch.value.cursorAfter)
        && batch.value.token == batch.value.cursorAfter && (limit >= 0 ==> |batch.value.records| <= limit)
      ensures batch.None? && !died ==> reached.Some? && Query(source.rd, source.table, reached.value, limit) == []
    {
      hide Base, Tally, InHand, QueueOf, Records, Between, Past, Query, Selected, InScope, Sorted;
      batch := None;
      died := Interlude([], None);
      if died { return; }
      batch := ReadSource();
    }

    /** The transport ships a batch; what it takes enters the log. */
    method Ship(hand: Batch) returns (outcome: Outcome, ghost taken: seq<Row>, ghost held: Option<Batch>)
      requires Running([]) && Now().queue == [] && reached.Some? && InHand(Cfg(), Now(), hand.records, hand.cursorAfter)
      modifies this`faults, this`acked
      ensures Running(taken) && Holding(Cfg(), Now(), held)
      ensures Grown(old(faults), faults, false, if outcome.PartialAck? then {PartialCut} else {})
      ensures outcome.PartialAck? ==> around.partialAcks
      ensures forall row :: row in taken ==> row in Flat(acked)
      ensures outcome.Acked? ==> taken == hand.records
      ensures outcome.RetryLater? || outcome.Permanent? ==> taken == [] && acked == old(acked)
      ensures !outcome.PartialAck? ==> held == Some(hand)
      ensures outcome.PartialAck? && Kept(Now()) ==>
        var a := Accepted(outcome, hand);
        if Now().books.pos < a then held == Some(Batch(taken, a, a)) else taken == []
    {
      hide Base, Tally, InHand, Committed, QueueOf, Records, Between;
      outcome := Answer();
      taken, held := [], Some(hand);
      ghost var s := Now();
      if outcome.Acked? {
        LogTaken(hand);
        taken := hand.records;
      } else if outcome.PartialAck? {
        ghost var a := Accepted(outcome, hand);
        if a <= hand.cursorAfter {
          PartialTaken(Cfg(), s, hand.records, hand.cursorAfter, a);
          taken := Records(Between(source.rd, source.ever, reached.value, a));
          held := if reached.value < a then Some(Batch(taken, a, a)) else None;
          acked := acked + [taken];
          assert Now() == Taken(s, taken);
        } else {
          OverclaimKeeps(Cfg(), s);
          held := None;
          faults := faults + {PartialCut};
          assert Now() == s.(faults := s.faults + {PartialCut});
        }
      }
    }

    /** One batch shipped and settled. */
    method ShipBatch(hand: Batch) returns (succeeded: bool, died: bool)
      requires Running([]) && Now().queue == [] && reached.Some? && InHand(Cfg(), Now(), hand.records, hand.cursorAfter)
      requires hand.token == hand.cursorAfter
      modifies this`faults, this`reached, this`acked, this`origin, this`replays
      modifies store`watermarks, store`deliverables, store`nextId, store`deadLetters
      modifies source`table, source`ever, source`lastId, source`anchor
      ensures Running([]) && Grown(old(faults), faults, died, {PartialCut})
      ensures succeeded ==> Now().queue == []
    {
      hide Base, Tally, InHand, Committed, QueueOf, Records, Between;
      succeeded := false;
      var outcome;
      ghost var taken, held;
      outcome, taken, held := Ship(hand);
      died := Interlude(taken, held);
      if died { return; }
      var now: int := *;  // the clock
      died := HandleFirstAttempt(hand, outcome, taken, now);
      succeeded := outcome.Acked? || outcome.PartialAck?;
    }

    /** `_drain_source`: one batch, or, with a budget, batches until it is spent,
        the source runs dry, a batch fails or the gate holds. */
    method DrainSource() returns (any: bool, shipped: nat, died: bool)
      requires Running([]) && Now().queue == []
      modifies this`faults, this`start, this`reached, this`acked, this`origin, this`replays
      modifies store`watermarks, store`deliverables, store`nextId, store`deadLetters
      modifies source`table, source`ever, source`lastId, source`anchor
      ensures Running([]) && Grown(old(faults), faults, died, {Reanchor, PartialCut})
      ensures limit >= 0 ==> if budget.None? then shipped <= limit else shipped == 0 || shipped < budget.value + limit
    {
      hide Base, Tally, InHand, Committed, QueueOf, Records, Between;
      any, shipped, died := false, 0, false;
      while budget.None? || shipped < budget.value
        invariant Running([]) && Now().queue == [] && !died
        invariant Grown(old(faults), faults, false, {Reanchor, PartialCut})
        invariant limit >= 0 ==> shipped == 0 || (budget.Some? && shipped < budget.value + limit)
        decreases if budget.Some? then budget.value - shipped else 0
      {
        var may: bool := *;  // the gate answers
        if !may { return; }
        var batch;
        batch, died := NextBatch();
        if died || batch.None? || batch.value.records == [] { return; }
        may := *;
        if !may { return; }
        var succeeded;
        succeeded, died := ShipBatch(batch.value);
        if died { return; }
        shipped := shipped + |batch.value.records|;
        any := true;
        if !succeeded || budget.None? || shipped >= budget.value { return; }
      }
    }

    /** `_pump_one`: due retries first, then the source, unless a retry waits. */
    method PumpOne() returns (didWork: bool, died: bool, stage: Stage)
      requires Running([])
      modifies this`faults, this`start, this`reached, this`acked, this`origin, this`replays
      modifies store`watermarks, store`deliverables, store`nextId, store`deadLetters
      modifies source`table, source`ever, source`lastId, source`anchor
      ensures Running([]) && Grown(old(faults), faults, died, {Reanchor, PartialReplay, PartialCut})
      ensures stage == HeldBack ==> !didWork && !died && unchanged(this) && unchanged(store) && unchanged(source)
      ensures stage == SourceWaits ==> (died || Now().queue != []) && OnlyTheRetry(old(acked), acked, old(Now().queue))
    {
      hide Base, Tally, InHand, Committed, QueueOf, Records, Between;
      didWork, died, stage := false, false, HeldBack;
      var may: bool := *;  // the gate answers
      if !may { return; }
      var now: int := *;   // the clock
      stage := SourceWaits;
      var stop;
      didWork, died, stop := DrainDeliverables(now);
      if died { return; }
      var queued := store.DeliverableCount(name);
      if queued > 0 { return; }
      stage := SourceRead;
      var any, shipped;
      any, shipped, died := DrainSource();
      didWork := didWork || any;
    }

    /** `write_starting_records` for this pipeline: a record only where the key
        holds none, where the source would anchor. */
    method WriteStartingRecord(now: int) returns (died: bool)
      requires Running([])
      modifies this`faults, this`start, this`reached, store`watermarks
      modifies source`table, source`ever, source`lastId, source`anchor
      ensures Running([]) && Grown(old(faults), faults, died, {Reanchor})
    {
      hide Base, Tally, InHand, Committed, QueueOf, Records, Between;
      died := false;
      if !store.GetCursor(key).Blank? || !source.startAtNow { return; }
      var a: int;
      if source.anchor.Some? { a := source.anchor.value; } else { a := source.PresentPosition(); }
      died := Interlude([], None);
      if died { return; }
      died := StartRecord(a, now);
    }

    method StartRecord(a: int, now: int) returns (died: bool)
      requires Running([]) && source.startAtNow && (source.anchor.Some? ==> a == source.anchor.value)
      modifies this`faults, this`start, this`reached, store`watermarks
      modifies source`table, source`ever, source`lastId, source`anchor
      ensures Running([]) && Grown(old(faults), faults, died, {Reanchor})
    {
      hide Running, Now;
      PutRecord(a, now);
      died := Interlude([], None);
    }

    method PutRecord(a: int, now: int)
      requires Running([]) && source.startAtNow && (source.anchor.Some? ==> a == source.anchor.value)
      modifies this`faults, this`start, this`reached, store`watermarks
      ensures Running([]) && Grown(old(faults), faults, false, {Reanchor})
    {
      hide Base, Tally, InHand, Committed, QueueOf, Records, Between;
      ghost var s := Now();
      var wrote := store.StartCursor(key, Digits(a, Decimal(a)), now);
      if wrote {
        StartRecordKeeps(Cfg(), s, a, Decimal(a));
        ghost var s' := Anchored(s, a);
        start, reached, faults := s'.books.start, Some(s'.books.pos), s'.faults;
        assert Now() == s'.(cursor := Digits(a, Decimal(a)));
      } else {
        assert Now() == s;
      }
    }

    /** Any run: pumps, arrivals, crashes, restarts and starting records, in any
        order, for as long as one likes. */
    method Run(steps: nat) returns (died: bool)
      requires Running([])
      modifies this`faults, this`start, this`reached, this`acked, this`origin, this`replays
      modifies store`watermarks, store`deliverables, store`nextId, store`deadLetters
      modifies source`table, source`ever, source`lastId, source`anchor
      ensures NothingLost(Cfg(), Now()) && ExactlyOnce(Cfg(), Now()) && OneRetry(Cfg(), Now())
      ensures !around.partialAcks && (Cfg().recorded || !source.startAtNow || !around.crashes) && reached.Some? ==>
                AtLeastOnce(Cfg(), Now())
      ensures !around.partialAcks && !around.crashes && reached.Some? ==>
                Flat(acked) == Records(Between(source.rd, source.ever, start, reached.value))
      ensures !around.partialAcks && !around.crashes ==> faults == {}
      ensures Grown(old(faults), faults, died, {Reanchor, PartialReplay, PartialCut})
      ensures forall id :: id in replays ==> replays[id] <= ReplayLimit(retry)
    {
      died := false;
      for i := 0 to steps
        invariant Running([]) && Grown(old(faults), faults, died, {Reanchor, PartialReplay, PartialCut})
      {
        hide Base, Tally, QueueOf, Records, Between;
        var starting: bool, now: int, diedNow := *, *, false;
        if starting {
          diedNow := WriteStartingRecord(now);
        } else {
          var didWork, stage;
          didWork, diedNow, stage := PumpOne();
        }
        died := died || diedNow;
      }
      Promises(Cfg(), Now());
      PromisesAround(Cfg(), Now(), around);
    }
  }

  /** `accepted_cursor or cursor_after`. */
  function Accepted(outcome: Outcome, hand: Batch): int
    requires outcome.PartialAck?
  {
    if outcome.accepted.Some? then outcome.accepted.value else hand.cursorAfter
  }
}
