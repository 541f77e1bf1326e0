/** What one SqliteSource selects from the sink, in batches, and the split of
    `psk.spots` by producer. */
module Selection {
  import opened Cursors
  import opened Sink

  // ---- the statement's clauses ------------------------------------------------

  predicate D12Knows(producer: string) {
    producer == PSK || producer == METEOR
  }

  predicate D12(producer: string, row: Row) {
    if producer == METEOR then SqlIsMsk144(row) else !SqlIsMsk144(row)
  }

  predicate OfProducer(producer: string, cols: Columns, row: Row) {
    if !cols.hasProducer then D12Knows(producer) && D12(producer, row)
    else row.producer == producer || (row.producer == "" && D12Knows(producer) && D12(producer, row))
  }

  /** The rows `commit` may delete: target, producer and instance scope, not local. */
  predicate InScope(rd: Reader, row: Row) {
    && row.db == rd.src.db && row.table == rd.src.table
    && (rd.src.producer.Some? ==> OfProducer(rd.src.producer.value, rd.cols, row))
    && (rd.src.radiod.Some? ==> Extract(Field(row, "radiod_id")) == SqlText(rd.src.radiod.value))
    && (rd.cols.hasLocal ==> !row.local)
  }

  /** The rows the batch query may yield. */
  predicate Selected(rd: Reader, row: Row) {
    && InScope(rd, row)
    && (rd.src.versions == [] || row.schema in rd.src.versions)
    && forall i :: 0 <= i < |rd.src.extra| ==> Holds(rd.src.extra[i], row)
  }

  predicate Sorted(rows: seq<Row>) {
    forall i, j :: 0 <= i < j < |rows| ==> rows[i].id < rows[j].id
  }

  /** Selected rows with lo < id <= hi, in id order. */
  function Between(rd: Reader, rows: seq<Row>, lo: int, hi: int): seq<Row> {
    if rows == [] then []
    else
      var r := rows[|rows| - 1];
      Between(rd, rows[..|rows| - 1], lo, hi) + if Selected(rd, r) && lo < r.id <= hi then [r] else []
  }

  /** Selected rows with id > lo, in id order. */
  function Past(rd: Reader, rows: seq<Row>, lo: int): seq<Row> {
    if rows == [] then []
    else
      var r := rows[|rows| - 1];
      Past(rd, rows[..|rows| - 1], lo) + if Selected(rd, r) && lo < r.id then [r] else []
  }

  /** The records a batch carries: its rows, less those whose payload is no JSON. */
  function Records(rows: seq<Row>): seq<Row> {
    if rows == [] then []
    else Records(rows[..|rows| - 1]) + if rows[|rows| - 1].parseable then [rows[|rows| - 1]] else []
  }

  /** The rows of one batch query; a negative LIMIT sets no limit. */
  function Query(rd: Reader, rows: seq<Row>, cur: int, limit: int): seq<Row> {
    var all := Past(rd, rows, cur);
    if limit < 0 || |all| <= limit then all else all[..limit]
  }

  lemma {:induction false} RecordsConcat(a: seq<Row>, b: seq<Row>)
    ensures Records(a + b) == Records(a) + Records(b)
  {
    if b == [] {
      assert a + b == a;
    } else {
      assert (a + b)[..|a + b| - 1] == a + b[..|b| - 1];
      RecordsConcat(a, b[..|b| - 1]);
    }
  }

  lemma {:induction false} RecordsMember(rows: seq<Row>, r: Row)
    ensures r in Records(rows) <==> r in rows && r.parseable
  {
    if rows != [] {
      RecordsMember(rows[..|rows| - 1], r);
      assert rows == rows[..|rows| - 1] + [rows[|rows| - 1]];
    }
  }

  lemma {:induction false} BetweenMember(rd: Reader, rows: seq<Row>, lo: int, hi: int, r: Row)
    ensures r in Between(rd, rows, lo, hi) <==> r in rows && Selected(rd, r) && lo < r.id <= hi
  {
    if rows != [] {
      BetweenMember(rd, rows[..|rows| - 1], lo, hi, r);
      assert rows == rows[..|rows| - 1] + [rows[|rows| - 1]];
    }
  }

  lemma {:induction false} PastMember(rd: Reader, rows: seq<Row>, lo: int, r: Row)
    ensures r in Past(rd, rows, lo) <==> r in rows && Selected(rd, r) && lo < r.id
  {
    if rows != [] {
      PastMember(rd, rows[..|rows| - 1], lo, r);
      assert rows == rows[..|rows| - 1] + [rows[|rows| - 1]];
    }
  }

  /** Everything past `lo` splits at any cursor `mid`. */
  lemma {:induction false} SplitPast(rd: Reader, rows: seq<Row>, lo: int, mid: int)
    requires Sorted(rows) && lo <= mid
    ensures Past(rd, rows, lo) == Between(rd, rows, lo, mid) + Past(rd, rows, mid)
  {
    if rows != [] {
      var front, r := rows[..|rows| - 1], rows[|rows| - 1];
      SplitPast(rd, front, lo, mid);
      if r.id <= mid {
        if Past(rd, front, mid) != [] {
          PastMember(rd, front, mid, Past(rd, front, mid)[0]);
        }
        assert Past(rd, front, mid) == [];
      }
    }
  }

  lemma {:induction false} SplitBetween(rd: Reader, rows: seq<Row>, lo: int, mid: int, hi: int)
    requires Sorted(rows) && lo <= mid <= hi
    ensures Between(rd, rows, lo, hi) == Between(rd, rows, lo, mid) + Between(rd, rows, mid, hi)
  {
    if rows != [] {
      var front, r := rows[..|rows| - 1], rows[|rows| - 1];
      SplitBetween(rd, front, lo, mid, hi);
      if r.id <= mid {
        if Between(rd, front, mid, hi) != [] {
          BetweenMember(rd, front, mid, hi, Between(rd, front, mid, hi)[0]);
        }
        assert Between(rd, front, mid, hi) == [];
      }
    }
  }

  lemma {:induction false} BetweenNothing(rd: Reader, rows: seq<Row>, lo: int, hi: int)
    requires hi <= lo
    ensures Between(rd, rows, lo, hi) == []
  {
    if rows != [] {
      BetweenNothing(rd, rows[..|rows| - 1], lo, hi);
    }
  }

  lemma {:induction false} PastSorted(rd: Reader, rows: seq<Row>, lo: int)
    requires Sorted(rows)
    ensures Sorted(Past(rd, rows, lo))
  {
    if rows != [] {
      var front, r := rows[..|rows| - 1], rows[|rows| - 1];
      PastSorted(rd, front, lo);
      forall x | x in Past(rd, front, lo) ensures x.id < r.id {
        PastMember(rd, front, lo, x);
        var i :| 0 <= i < |front| && front[i] == x;
        assert rows[i] == x;
      }
    }
  }

  /** A prefix of what lies past the cursor is everything up to its last id. */
  lemma {:induction false} PrefixIsBetween(rd: Reader, rows: seq<Row>, lo: int, n: nat)
    requires Sorted(rows) && 0 < n <= |Past(rd, rows, lo)|
    ensures lo < Past(rd, rows, lo)[n - 1].id
    ensures Past(rd, rows, lo)[..n] == Between(rd, rows, lo, Past(rd, rows, lo)[n - 1].id)
    ensures Past(rd, rows, lo)[n..] == Past(rd, rows, Past(rd, rows, lo)[n - 1].id)
  {
    var all := Past(rd, rows, lo);
    var k := all[n - 1].id;
    PastSorted(rd, rows, lo);
    PastMember(rd, rows, lo, all[n - 1]);
    SplitPast(rd, rows, lo, k);
    var head, tail := Between(rd, rows, lo, k), Past(rd, rows, k);
    if |head| < n {
      assert all[n - 1] == tail[n - 1 - |head|];
      PastMember(rd, rows, k, all[n - 1]);
      assert false;
    }
    if |head| > n {
      assert head[n] == all[n];
      BetweenMember(rd, rows, lo, k, head[n]);
      assert false;
    }
  }

  /** A query's batch is exactly the selected rows between the cursor and its
      last id; only what lies past that id is left. */
  lemma QueryIsBetween(rd: Reader, rows: seq<Row>, cur: int, limit: int)
    requires Sorted(rows) && Query(rd, rows, cur, limit) != []
    ensures var q := Query(rd, rows, cur, limit); var k := q[|q| - 1].id;
      cur < k && q == Between(rd, rows, cur, k) && Past(rd, rows, cur) == q + Past(rd, rows, k)
  {
    var q := Query(rd, rows, cur, limit);
    assert q == Past(rd, rows, cur)[..|q|];
    PrefixIsBetween(rd, rows, cur, |q|);
    assert Past(rd, rows, cur) == Past(rd, rows, cur)[..|q|] + Past(rd, rows, cur)[|q|..];
  }

  // ---- one batch -----------------------------------------------------------------

  datatype Batch = Batch(records: seq<Row>, cursorAfter: int, token: int)

  /** `_iter_one_batch`: at most one batch; a payload that is no JSON is skipped
      but the batch's cursor passes it. */
  method IterOneBatch(rd: Reader, table: seq<Row>, cur: int, limit: int) returns (batch: Option<Batch>)
    requires Sorted(table)
    ensures batch.None? <==> Query(rd, table, cur, limit) == []
    ensures batch.Some? ==>
      && cur < batch.value.cursorAfter == batch.value.token
      && (var q := Query(rd, table, cur, limit); q[|q| - 1].id == batch.value.cursorAfter)
      && Query(rd, table, cur, limit) == Between(rd, table, cur, batch.value.cursorAfter)
      && batch.value.records == Records(Between(rd, table, cur, batch.value.cursorAfter))
      && Past(rd, table, cur) == Query(rd, table, cur, limit) + Past(rd, table, batch.value.cursorAfter)
      && (exists r :: r in table && r.id == batch.value.cursorAfter)
  {
    var rows := Query(rd, table, cur, limit);
    if rows == [] { return None; }
    var records: seq<Row> := [];
    var lastId := cur;
    for i := 0 to |rows|
      invariant records == Records(rows[..i])
      invariant lastId == if i == 0 then cur else rows[i - 1].id
    {
      assert rows[..i + 1][..i] == rows[..i];
      if rows[i].parseable {
        records := records + [rows[i]];
      }
      lastId := rows[i].id;
    }
    assert rows[..|rows|] == rows;
    QueryIsBetween(rd, table, cur, limit);
    BetweenMember(rd, table, cur, lastId, rows[|rows| - 1]);
    batch := Some(Batch(records, lastId, lastId));
  }

  // ---- draining --------------------------------------------------------------------

  function Ids(rows: seq<Row>): set<int> {
    set r | r in rows :: r.id
  }

  /** `drain_ids`, for a batch of any size: it yields every selected row past the
      empty cursor once, in id order. */
  method Drain(rd: Reader, table: seq<Row>, limit: int) returns (shipped: seq<Row>, ids: set<int>)
    requires Sorted(table) && limit != 0
    ensures shipped == Records(Past(rd, table, 0))
    ensures limit == 1 ==> ids == Ids(Records(Past(rd, table, 0)))
  {
    shipped, ids := [], {};
    var cursor := 0;
    BetweenNothing(rd, table, 0, 0);
    while true
      invariant cursor >= 0
      invariant shipped == Records(Between(rd, table, 0, cursor))
      invariant limit == 1 ==> ids == Ids(shipped)
      decreases |Past(rd, table, cursor)|
    {
      var batch := IterOneBatch(rd, table, cursor, limit);
      SplitPast(rd, table, 0, cursor);
      if batch.None? {
        assert Between(rd, table, 0, cursor) + [] == Between(rd, table, 0, cursor);
        return;
      }
      var b := batch.value;
      ghost var q := Query(rd, table, cursor, limit);
      QueryIsBetween(rd, table, cursor, limit);
      SplitBetween(rd, table, 0, cursor, b.cursorAfter);
      RecordsConcat(Between(rd, table, 0, cursor), q);
      ghost var before := shipped;
      shipped := shipped + b.records;
      if b.records != [] {
        ids := ids + {b.cursorAfter};
      }
      if limit == 1 {
        OneRowBatch(q, b.records);
        assert Ids(shipped) == Ids(before) + Ids(b.records);
      }
      cursor := b.cursorAfter;
    }
  }

  lemma OneRowBatch(q: seq<Row>, records: seq<Row>)
    requires |q| == 1 && records == Records(q)
    ensures Ids(records) == if records == [] then {} else {q[0].id}
  {
    assert q[..0] == [] && q == [q[0]];
  }
}
