/** The watermark store: send records, the retry queue, dead letters. Each
    method is one transaction. */
module WatermarkStore {
  import opened Cursors
  import opened Sink

  datatype Key = Key(source: string, dest: string, table: string)

  /** A queued retry. The payload is the batch `serialize_for_retry` captured;
      times are epoch seconds. */
  datatype Deliverable = Deliverable(id: nat, pipeline: string, payload: seq<Row>, enqueuedAt: int, attempts: int,
                                     nextAt: int, key: Key, cursorAfter: Cursor, token: Cursor)

  datatype DeadLetter = DeadLetter(ts: int, pipeline: string, payload: seq<Row>, error: string)

  /** The retries queued for one pipeline. */
  function QueueOf(ds: seq<Deliverable>, pipeline: string): seq<Deliverable> {
    if ds == [] then []
    else QueueOf(ds[..|ds| - 1], pipeline) + if ds[|ds| - 1].pipeline == pipeline then [ds[|ds| - 1]] else []
  }

  lemma {:induction false} QueueOfConcat(a: seq<Deliverable>, b: seq<Deliverable>, pipeline: string)
    ensures QueueOf(a + b, pipeline) == QueueOf(a, pipeline) + QueueOf(b, pipeline)
  {
    if b == [] {
      assert a + b == a;
    } else {
      assert (a + b)[..|a + b| - 1] == a + b[..|b| - 1];
      QueueOfConcat(a, b[..|b| - 1], pipeline);
    }
  }

  lemma {:induction false} QueueOfMember(ds: seq<Deliverable>, pipeline: string, d: Deliverable)
    ensures d in QueueOf(ds, pipeline) <==> d in ds && d.pipeline == pipeline
  {
    if ds != [] {
      QueueOfMember(ds[..|ds| - 1], pipeline, d);
      assert ds == ds[..|ds| - 1] + [ds[|ds| - 1]];
    }
  }

  /** Taking row `i` out takes it out of its own pipeline's queue alone. */
  lemma QueueOfRemoved(ds: seq<Deliverable>, i: nat, pipeline: string) returns (a: seq<Deliverable>, b: seq<Deliverable>)
    requires i < |ds|
    ensures QueueOf(ds[..i] + ds[i + 1..], pipeline) == a + b
    ensures QueueOf(ds, pipeline) == a + (if ds[i].pipeline == pipeline then [ds[i]] else []) + b
  {
    a, b := QueueOf(ds[..i], pipeline), QueueOf(ds[i + 1..], pipeline);
    QueueOfConcat(ds[..i], ds[i + 1..], pipeline);
    assert ds == (ds[..i] + [ds[i]]) + ds[i + 1..];
    QueueOfConcat(ds[..i] + [ds[i]], ds[i + 1..], pipeline);
    assert (ds[..i] + [ds[i]])[..i] == ds[..i];
  }

  predicate Due(d: Deliverable, pipeline: string, now: int) {
    d.pipeline == pipeline && d.nextAt <= now
  }

  /** `after` is `before` with one occurrence of `d` taken out. */
  ghost predicate Removed(before: seq<Deliverable>, after: seq<Deliverable>, d: Deliverable) {
    exists i :: 0 <= i < |before| && before[i] == d && after == before[..i] + before[i + 1..]
  }

  /** The same work already queued: a retry of this pipeline to the same non-empty cursor. */
  predicate Duplicate(queue: seq<Deliverable>, cursorAfter: Cursor) {
    cursorAfter != Blank && exists q :: q in queue && q.cursorAfter == cursorAfter
  }

  /** Taking one retry out takes it out of its pipeline's queue. */
  lemma Claims(ds: seq<Deliverable>, i: nat, pipeline: string)
    requires i < |ds| && ds[i].pipeline == pipeline
    requires forall j, k :: 0 <= j < k < |ds| ==> ds[j].id != ds[k].id
    ensures var rest := ds[..i] + ds[i + 1..];
      && Removed(ds, rest, ds[i]) && Removed(QueueOf(ds, pipeline), QueueOf(rest, pipeline), ds[i])
      && forall d :: d in rest ==> d.id != ds[i].id
  {
    var a, b := QueueOfRemoved(ds, i, pipeline);
    hide QueueOf;
    var q := a + [ds[i]] + b;
    assert q[..|a|] == a && q[|a| + 1..] == b && q[|a|] == ds[i];
  }

  class Store {
    var watermarks: map<Key, Record>
    var deliverables: seq<Deliverable>
    var nextId: nat
    var deadLetters: seq<DeadLetter>

    ghost predicate Valid()
      reads this
    {
      && (forall i, j :: 0 <= i < j < |deliverables| ==> deliverables[i].id != deliverables[j].id)
      && (forall i :: 0 <= i < |deliverables| ==> deliverables[i].id < nextId)
    }

    constructor ()
      ensures Valid() && watermarks == map[] && deliverables == [] && deadLetters == []
    {
      watermarks, deliverables, nextId, deadLetters := map[], [], 1, [];
    }

    function GetCursor(key: Key): Cursor
      reads this
    {
      if key in watermarks then watermarks[key].cursor else Blank
    }

    function Stored(key: Key): Option<Record>
      reads this
    {
      if key in watermarks then Some(watermarks[key]) else None
    }

    /** Insert-only: an existing row, readable or not, stays as it was. */
    method StartCursor(key: Key, cursor: Cursor, ack: int) returns (wrote: bool)
      modifies this`watermarks
      ensures wrote <==> key !in old(watermarks)
      ensures watermarks == if wrote then old(watermarks)[key := Record(cursor, ack)] else old(watermarks)
      ensures Stored(key) == Apply(ById, old(Stored(key)), Start(cursor, ack))
    {
      wrote := key !in watermarks;
      if wrote {
        watermarks := watermarks[key := Record(cursor, ack)];
      }
    }

    /** Forward only, in one transaction. No other key changes. */
    method AdvanceCursor(key: Key, cursor: Cursor, ack: int, order: Order) returns (result: Advance)
      modifies this`watermarks
      ensures (Stored(key), result) == Advanced(order, old(Stored(key)), cursor, ack)
      ensures watermarks.Keys == old(watermarks).Keys + {key}
      ensures forall k :: k in old(watermarks) && k != key ==> watermarks[k] == old(watermarks[k])
    {
      if key !in watermarks {
        watermarks := watermarks[key := Record(cursor, ack)];
        return WRITTEN;
      }
      var stored := watermarks[key].cursor;
      if stored.HandEdited? {
        watermarks := watermarks[key := Record(cursor, ack)];
        return WRITTEN_UNCHECKED;
      }
      var after := IsAfter(order, cursor, stored);
      var before := if after == Some(false) && cursor != stored then IsAfter(order, stored, cursor) else Some(false);
      if after.None? || before.None? {
        watermarks := watermarks[key := Record(cursor, ack)];
        return WRITTEN_UNCHECKED;
      }
      if after.value {
        watermarks := watermarks[key := Record(cursor, ack)];
        return WRITTEN;
      }
      if before.value {
        return REFUSED;
      }
      watermarks := watermarks[key := watermarks[key].(lastAck := ack)];
      return REFRESHED;
    }

    /** Queue one retry; a duplicate of one already queued is not added. */
    method Enqueue(pipeline: string, payload: seq<Row>, enqueuedAt: int, nextAt: int, key: Key, cursorAfter: Cursor,
                   token: Cursor) returns (id: nat)
      requires Valid()
      modifies this`deliverables, this`nextId
      ensures Valid()
      ensures var d := Deliverable(id, pipeline, payload, enqueuedAt, 0, nextAt, key, cursorAfter, token);
        !Duplicate(old(QueueOf(deliverables, pipeline)), cursorAfter) ==>
          && id == old(nextId) && nextId == id + 1
          && deliverables == old(deliverables) + [d]
          && QueueOf(deliverables, pipeline) == old(QueueOf(deliverables, pipeline)) + [d]
      ensures Duplicate(old(QueueOf(deliverables, pipeline)), cursorAfter) ==>
        && deliverables == old(deliverables) && nextId == old(nextId)
        && exists q :: q in deliverables && q.id == id && q.cursorAfter == cursorAfter
    {
      if cursorAfter != Blank {
        for i := 0 to |deliverables|
          invariant forall j :: 0 <= j < i ==>
            !(deliverables[j].pipeline == pipeline && deliverables[j].cursorAfter == cursorAfter)
        {
          if deliverables[i].pipeline == pipeline && deliverables[i].cursorAfter == cursorAfter {
            QueueOfMember(deliverables, pipeline, deliverables[i]);
            return deliverables[i].id;
          }
        }
      }
      forall q | q in QueueOf(deliverables, pipeline) ensures cursorAfter == Blank || q.cursorAfter != cursorAfter {
        QueueOfMember(deliverables, pipeline, q);
      }
      id := nextId;
      nextId := nextId + 1;
      var d := Deliverable(id, pipeline, payload, enqueuedAt, 0, nextAt, key, cursorAfter, token);
      deliverables := deliverables + [d];
      assert (old(deliverables) + [d])[..|old(deliverables)|] == old(deliverables);
    }

    /** The due retry with the earliest next attempt. */
    method FindDue(pipeline: string, now: int) returns (best: Option<nat>)
      ensures best.None? ==> forall d :: d in deliverables ==> !Due(d, pipeline, now)
      ensures best.Some? ==> best.value < |deliverables| && Due(deliverables[best.value], pipeline, now)
      ensures best.Some? ==> forall d :: d in deliverables && Due(d, pipeline, now) ==>
                               deliverables[best.value].nextAt <= d.nextAt
    {
      best := None;
      for i := 0 to |deliverables|
        invariant best.None? ==> forall j :: 0 <= j < i ==> !Due(deliverables[j], pipeline, now)
        invariant best.Some? ==> best.value < i && Due(deliverables[best.value], pipeline, now)
        invariant best.Some? ==> forall j :: 0 <= j < i && Due(deliverables[j], pipeline, now) ==>
                                   deliverables[best.value].nextAt <= deliverables[j].nextAt
      {
        if Due(deliverables[i], pipeline, now) && (best.None? || deliverables[i].nextAt < deliverables[best.value].nextAt) {
          best := Some(i);
        }
      }
    }

    /** Claim it: it leaves the table, and its pipeline's queue, alone. */
    method PopDue(pipeline: string, now: int) returns (popped: Option<Deliverable>)
      requires Valid()
      modifies this`deliverables
      ensures Valid()
      ensures popped.None? ==>
        deliverables == old(deliverables) && forall d :: d in deliverables ==> !Due(d, pipeline, now)
      ensures popped.Some? ==>
        && Due(popped.value, pipeline, now) && popped.value.id < nextId
        && (forall d :: d in old(deliverables) && Due(d, pipeline, now) ==> popped.value.nextAt <= d.nextAt)
        && (forall d :: d in deliverables ==> d.id != popped.value.id)
        && Removed(old(deliverables), deliverables, popped.value)
        && Removed(old(QueueOf(deliverables, pipeline)), QueueOf(deliverables, pipeline), popped.value)
    {
      var best := FindDue(pipeline, now);
      if best.None? { return None; }
      hide QueueOf, Removed, Due;
      popped := Some(deliverables[best.value]);
      Claims(deliverables, best.value, pipeline);
      deliverables := deliverables[..best.value] + deliverables[best.value + 1..];
    }

    /** Re-insert a claimed retry whole, under its own id. */
    method Requeue(d: Deliverable)
      requires Valid() && d.id < nextId && forall q :: q in deliverables ==> q.id != d.id
      modifies this`deliverables
      ensures Valid() && deliverables == old(deliverables) + [d]
      ensures QueueOf(deliverables, d.pipeline) == old(QueueOf(deliverables, d.pipeline)) + [d]
    {
      deliverables := deliverables + [d];
      assert (old(deliverables) + [d])[..|old(deliverables)|] == old(deliverables);
    }

    method DeliverableCount(pipeline: string) returns (n: nat)
      ensures n == |QueueOf(deliverables, pipeline)|
    {
      n := 0;
      for i := 0 to |deliverables|
        invariant n == |QueueOf(deliverables[..i], pipeline)|
      {
        assert deliverables[..i + 1][..i] == deliverables[..i];
        if deliverables[i].pipeline == pipeline { n := n + 1; }
      }
      assert deliverables[..|deliverables|] == deliverables;
    }

    method SendToDeadLetter(ts: int, pipeline: string, payload: seq<Row>, error: string)
      modifies this`deadLetters
      ensures deadLetters == old(deadLetters) + [DeadLetter(ts, pipeline, payload, error)]
    {
      deadLetters := deadLetters + [DeadLetter(ts, pipeline, payload, error)];
    }
  }
}
