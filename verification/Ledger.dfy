/** What a pipeline owes and what it has delivered, as values: the facts the
    delivery protocol keeps, and how each transaction moves them. */
module Ledger {
  import opened Cursors
  import opened Sink
  import opened Selection

  /** `ever`: every row inserted since the pipeline's first look at the sink;
      `table`: the rows still there; `start`, `pos`: where the send record began
      and stands; `acked`: each batch a destination took, in order. */
  datatype Ledger = Ledger(ever: seq<Row>, table: seq<Row>, start: int, pos: int, acked: seq<seq<Row>>)

  function Flat(batches: seq<seq<Row>>): seq<Row> {
    if batches == [] then [] else Flat(batches[..|batches| - 1]) + batches[|batches| - 1]
  }

  function LastId(rows: seq<Row>, default: int): int {
    if rows == [] then default else rows[|rows| - 1].id
  }

  ghost predicate Consistent(l: Ledger) {
    && Sorted(l.ever) && Sorted(l.table) && (forall r :: r in l.table ==> r in l.ever)
    && l.start <= l.pos && (l.pos == l.start || (l.ever != [] && l.pos <= LastId(l.ever, l.pos)))
  }

  /** Every selected row above the send record is still in the sink. */
  ghost predicate Held(rd: Reader, l: Ledger) {
    Past(rd, l.table, l.pos) == Past(rd, l.ever, l.pos)
  }

  /** Every selected row the send record passed was acked. */
  ghost predicate Covered(rd: Reader, l: Ledger) {
    forall r :: r in Records(Between(rd, l.ever, l.start, l.pos)) ==> r in Flat(l.acked)
  }

  /** The acked batches are exactly the rows passed, once each, in id order
      (`ahead`: taken by the destination, its cursor not written yet). */
  ghost predicate Exact(rd: Reader, l: Ledger, ahead: seq<Row>) {
    Flat(l.acked) == Records(Between(rd, l.ever, l.start, l.pos)) + ahead
  }

  /** What a destination took past the send record leaves no readable row out. */
  ghost predicate Gapless(rd: Reader, l: Ledger) {
    && (forall q :: q in Flat(l.acked) ==> q in l.ever)
    && forall q, r :: q in Flat(l.acked) && r in l.ever && Readable(rd, r) && l.pos < r.id <= q.id ==> r in Flat(l.acked)
  }

  /** A row the source ships. */
  predicate Readable(rd: Reader, r: Row) {
    Selected(rd, r) && r.parseable
  }

  /** `payload` is what the batch from the send record up to `k` must carry. */
  ghost predicate Carries(rd: Reader, l: Ledger, payload: seq<Row>, k: int) {
    && l.pos < k && l.ever != [] && k <= LastId(l.ever, k)
    && payload == Records(Between(rd, l.ever, l.pos, k))
  }

  lemma FlatAdd(batches: seq<seq<Row>>, b: seq<Row>)
    ensures Flat(batches + [b]) == Flat(batches) + b
  {
    assert (batches + [b])[..|batches|] == batches;
  }

  // ---- rows arrive ----------------------------------------------------------------

  /** AUTOINCREMENT: a new row's id lies above every id ever used. */
  predicate Fresh(ever: seq<Row>, more: seq<Row>) {
    Sorted(more) && (ever != [] && more != [] ==> ever[|ever| - 1].id < more[0].id)
  }

  lemma {:induction false} BetweenAppend(rd: Reader, a: seq<Row>, b: seq<Row>, lo: int, hi: int)
    ensures Between(rd, a + b, lo, hi) == Between(rd, a, lo, hi) + Between(rd, b, lo, hi)
  {
    if b == [] {
      assert a + b == a;
    } else {
      assert (a + b)[..|a + b| - 1] == a + b[..|b| - 1];
      BetweenAppend(rd, a, b[..|b| - 1], lo, hi);
    }
  }

  lemma {:induction false} PastAppend(rd: Reader, a: seq<Row>, b: seq<Row>, lo: int)
    ensures Past(rd, a + b, lo) == Past(rd, a, lo) + Past(rd, b, lo)
  {
    if b == [] {
      assert a + b == a;
    } else {
      assert (a + b)[..|a + b| - 1] == a + b[..|b| - 1];
      PastAppend(rd, a, b[..|b| - 1], lo);
    }
  }

  lemma FreshBeyond(rd: Reader, ever: seq<Row>, more: seq<Row>, lo: int, hi: int)
    requires Sorted(ever) && Fresh(ever, more) && (hi <= lo || (ever != [] && hi <= LastId(ever, hi)))
    ensures Between(rd, ever + more, lo, hi) == Between(rd, ever, lo, hi)
    ensures Sorted(ever + more)
  {
    BetweenAppend(rd, ever, more, lo, hi);
    if hi <= lo {
      BetweenNothing(rd, more, lo, hi);
    } else if Between(rd, more, lo, hi) != [] {
      BetweenMember(rd, more, lo, hi, Between(rd, more, lo, hi)[0]);
    }
    assert Between(rd, more, lo, hi) == [];
  }

  function Arrived(l: Ledger, more: seq<Row>): Ledger {
    l.(ever := l.ever + more, table := l.table + more)
  }

  lemma ArrivalKeeps(rd: Reader, l: Ledger, more: seq<Row>)
    requires Consistent(l) && Fresh(l.ever, more)
    ensures Consistent(Arrived(l, more))
    ensures Held(rd, l) ==> Held(rd, Arrived(l, more))
    ensures Covered(rd, l) ==> Covered(rd, Arrived(l, more))
    ensures Between(rd, l.ever + more, l.start, l.pos) == Between(rd, l.ever, l.start, l.pos)
  {
    FreshBeyond(rd, l.ever, more, l.start, l.pos);
    PastAppend(rd, l.ever, more, l.pos);
    PastAppend(rd, l.table, more, l.pos);
    forall i, j | 0 <= i < j < |l.table + more| ensures (l.table + more)[i].id < (l.table + more)[j].id {
      if i < |l.table| <= j {
        assert l.table[i] in l.table;
        var e :| 0 <= e < |l.ever| && l.ever[e] == l.table[i];
        assert l.ever[e].id <= l.ever[|l.ever| - 1].id;
      }
    }
  }

  lemma ArrivalCarries(rd: Reader, l: Ledger, more: seq<Row>, payload: seq<Row>, k: int)
    requires Consistent(l) && Fresh(l.ever, more) && Carries(rd, l, payload, k)
    ensures Carries(rd, Arrived(l, more), payload, k)
  {
    FreshBeyond(rd, l.ever, more, l.pos, k);
  }

  // ---- a batch is taken, and the send record follows --------------------------------

  lemma SameTail(rd: Reader, a: seq<Row>, b: seq<Row>, lo: int, k: int)
    requires Sorted(a) && Sorted(b) && lo <= k && Past(rd, a, lo) == Past(rd, b, lo)
    ensures Between(rd, a, lo, k) == Between(rd, b, lo, k) && Past(rd, a, k) == Past(rd, b, k)
  {
    SplitPast(rd, a, lo, k);
    SplitPast(rd, b, lo, k);
    var x1, y1, x2, y2 := Between(rd, a, lo, k), Past(rd, a, k), Between(rd, b, lo, k), Past(rd, b, k);
    assert x1 + y1 == x2 + y2;
    if |x1| < |x2| {
      assert (x1 + y1)[|x1|] == (x2 + y2)[|x1|];
      assert y1[0] == x2[|x1|];
      PastMember(rd, a, k, y1[0]);
      BetweenMember(rd, b, lo, k, x2[|x1|]);
      assert false;
    }
    if |x2| < |x1| {
      assert (x1 + y1)[|x2|] == (x2 + y2)[|x2|];
      assert y2[0] == x1[|x2|];
      PastMember(rd, b, k, y2[0]);
      BetweenMember(rd, a, lo, k, x1[|x2|]);
      assert false;
    }
    assert x1 == (x1 + y1)[..|x1|] && y1 == (x1 + y1)[|x1|..];
  }

  /** A batch read from the sink is a batch of what was ever inserted. */
  lemma BatchCarries(rd: Reader, l: Ledger, b: Batch)
    requires Consistent(l) && Held(rd, l) && l.pos < b.cursorAfter
    requires b.records == Records(Between(rd, l.table, l.pos, b.cursorAfter))
    requires exists r :: r in l.table && r.id == b.cursorAfter
    ensures Carries(rd, l, b.records, b.cursorAfter)
  {
    SameTail(rd, l.table, l.ever, l.pos, b.cursorAfter);
    var r :| r in l.table && r.id == b.cursorAfter;
    var i :| 0 <= i < |l.ever| && l.ever[i] == r;
  }

  /** The destination takes a batch: the log grows; nothing else moves. */
  lemma TakenKeeps(rd: Reader, l: Ledger, payload: seq<Row>)
    ensures Covered(rd, l) ==> Covered(rd, l.(acked := l.acked + [payload]))
    ensures Exact(rd, l, []) ==> Exact(rd, l.(acked := l.acked + [payload]), payload)
  {
    FlatAdd(l.acked, payload);
  }

  /** The send record moves to `k` once the rows up to `k` are in the log. */
  lemma AdvanceKeeps(rd: Reader, l: Ledger, k: int, payload: seq<Row>)
    requires Consistent(l) && l.pos <= k && (k == l.pos || (l.ever != [] && k <= LastId(l.ever, k)))
    requires payload == Records(Between(rd, l.ever, l.pos, k))
    ensures Consistent(l.(pos := k))
    ensures Held(rd, l) ==> Held(rd, l.(pos := k))
    ensures Covered(rd, l) && (forall r :: r in payload ==> r in Flat(l.acked)) ==> Covered(rd, l.(pos := k))
    ensures Exact(rd, l, payload) ==> Exact(rd, l.(pos := k), [])
  {
    SplitBetween(rd, l.ever, l.start, l.pos, k);
    RecordsConcat(Between(rd, l.ever, l.start, l.pos), Between(rd, l.ever, l.pos, k));
    if Held(rd, l) {
      SameTail(rd, l.table, l.ever, l.pos, k);
    }
  }

  // ---- rows taken but not recorded ---------------------------------------------------------

  lemma ArrivalGapless(rd: Reader, l: Ledger, more: seq<Row>)
    requires Consistent(l) && Fresh(l.ever, more) && Gapless(rd, l)
    ensures Gapless(rd, Arrived(l, more))
  {
    hide Readable, Flat;
    var l' := Arrived(l, more);
    forall q, r | q in Flat(l'.acked) && r in l'.ever && Readable(rd, r) && l'.pos < r.id <= q.id ensures r in Flat(l'.acked) {
      if r !in l.ever { NewIsLater(l.ever, more, q, r); }
    }
  }

  lemma NewIsLater(ever: seq<Row>, more: seq<Row>, q: Row, r: Row)
    requires Sorted(ever) && Fresh(ever, more) && q in ever && r in more
    ensures q.id < r.id
  {
    var i :| 0 <= i < |ever| && ever[i] == q;
    var j :| 0 <= j < |more| && more[j] == r;
  }

  lemma TakenGapless(rd: Reader, l: Ledger, payload: seq<Row>, k: int)
    requires Gapless(rd, l) && payload == Records(Between(rd, l.ever, l.pos, k))
    ensures Gapless(rd, l.(acked := l.acked + [payload]))
  {
    FlatAdd(l.acked, payload);
    forall r ensures r in payload <==> r in l.ever && Readable(rd, r) && l.pos < r.id <= k {
      RecordsMember(Between(rd, l.ever, l.pos, k), r);
      BetweenMember(rd, l.ever, l.pos, k, r);
    }
    hide Readable, Flat, Records, Between;
    var flat, flat' := Flat(l.acked), Flat(l.acked + [payload]);
    assert forall r :: r in flat' <==> r in flat || r in payload;
  }

  /** The highest id a destination took, or the record. */
  function Highest(rows: seq<Row>, pos: int): (h: int)
    ensures pos <= h && (forall r :: r in rows ==> r.id <= h) && (h == pos || exists r :: r in rows && r.id == h)
  {
    if rows == [] then pos
    else
      var h := Highest(rows[..|rows| - 1], pos);
      var r := rows[|rows| - 1];
      assert rows == rows[..|rows| - 1] + [r];
      if h < r.id then r.id else h
  }

  /** The record jumps to `a` without a batch: every row it passed was acked exactly
      when no row to ship lies past the last one taken, up to `a`. */
  lemma JumpCoversIff(rd: Reader, l: Ledger, a: int)
    requires Covered(rd, l) && Gapless(rd, l) && l.start <= l.pos
    ensures Covered(rd, l.(pos := a)) <==>
            forall r :: r in l.ever && Readable(rd, r) && Highest(Flat(l.acked), l.pos) < r.id ==> a < r.id
  {
    var h := Highest(Flat(l.acked), l.pos);
    forall r, k ensures r in Records(Between(rd, l.ever, l.start, k)) <==> r in l.ever && Readable(rd, r) && l.start < r.id <= k {
      RecordsMember(Between(rd, l.ever, l.start, k), r);
      BetweenMember(rd, l.ever, l.start, k, r);
    }
    hide Readable, Flat, Records, Between;
    if r :| r in l.ever && Readable(rd, r) && h < r.id <= a {
      assert r in Records(Between(rd, l.ever, l.start, a)) && r !in Flat(l.acked);
    } else {
      forall r | r in Records(Between(rd, l.ever, l.start, a)) ensures r in Flat(l.acked) {
        if r.id <= l.pos {
          assert r in Records(Between(rd, l.ever, l.start, l.pos));
        } else {
          var q :| q in Flat(l.acked) && q.id == h;
        }
      }
    }
  }

  // ---- commit deletes ------------------------------------------------------------------

  /** The table after `commit`: rows of the source's scope up to `k` go, selected or not. */
  function Committed(rd: Reader, table: seq<Row>, k: int): (rest: seq<Row>)
    ensures forall r :: r in rest <==> r in table && !(InScope(rd, r) && r.id <= k)
  {
    if table == [] then []
    else
      var r := table[|table| - 1];
      assert table == table[..|table| - 1] + [r];
      Committed(rd, table[..|table| - 1], k) + if InScope(rd, r) && r.id <= k then [] else [r]
  }

  lemma {:induction false} CommittedSorted(rd: Reader, table: seq<Row>, k: int)
    requires Sorted(table)
    ensures Sorted(Committed(rd, table, k))
  {
    if table != [] {
      CommittedSorted(rd, table[..|table| - 1], k);
    }
  }

  /** Above the committed id nothing selected goes; at or below it everything does. */
  lemma {:induction false} CommittedPast(rd: Reader, table: seq<Row>, k: int, lo: int)
    ensures k <= lo ==> Past(rd, Committed(rd, table, k), lo) == Past(rd, table, lo)
    ensures lo <= k ==> Past(rd, Committed(rd, table, k), lo) == Past(rd, table, k)
  {
    if table != [] {
      CommittedPast(rd, table[..|table| - 1], k, lo);
      var c := Committed(rd, table[..|table| - 1], k);
      var r := table[|table| - 1];
      if !(InScope(rd, r) && r.id <= k) {
        assert (c + [r])[..|c|] == c;
      } else {
        assert c + [] == c;
      }
    }
  }

  lemma CommitKeeps(rd: Reader, l: Ledger, k: int)
    requires Consistent(l) && k <= l.pos
    ensures Consistent(l.(table := Committed(rd, l.table, k)))
    ensures Held(rd, l) ==> Held(rd, l.(table := Committed(rd, l.table, k)))
  {
    CommittedSorted(rd, l.table, k);
    CommittedPast(rd, l.table, k, l.pos);
  }

  /** A partial ack commits the whole token while the record stops at `pos`:
      the rest of the batch stays in the sink exactly when there is none. */
  lemma PartialCommitKeepsIff(rd: Reader, l: Ledger, k: int)
    requires Consistent(l) && Held(rd, l) && l.pos <= k
    ensures Consistent(l.(table := Committed(rd, l.table, k)))
    ensures Held(rd, l.(table := Committed(rd, l.table, k))) <==> Between(rd, l.ever, l.pos, k) == []
  {
    CommittedSorted(rd, l.table, k);
    CommittedPast(rd, l.table, k, l.pos);
    SameTail(rd, l.table, l.ever, l.pos, k);
    SplitPast(rd, l.ever, l.pos, k);
  }

  /** `commit` ignores the schema version and `extra_where`: a row it deletes in
      scope goes unsent exactly when the source selects no record from it. */
  lemma CommitDeletesUnsentIff(rd: Reader, l: Ledger, row: Row)
    requires Consistent(l) && Exact(rd, l, []) && row in l.table && l.start < row.id <= l.pos && InScope(rd, row)
    ensures row !in Committed(rd, l.table, l.pos)
    ensures row !in Flat(l.acked) <==> !(Selected(rd, row) && row.parseable)
  {
    RecordsMember(Between(rd, l.ever, l.start, l.pos), row);
    BetweenMember(rd, l.ever, l.start, l.pos, row);
  }

  // ---- a batch with no record ------------------------------------------------------------

  /** A batch of unreadable rows carries no record, and no batch without a record moves
      the send record: a row to ship that arrives behind it never gets its turn,
      whatever arrives, exactly when the batch is as long as the limit lets it be. */
  lemma WedgedIff(rd: Reader, table: seq<Row>, pos: int, limit: int, v: Row)
    requires Records(Query(rd, table, pos, limit)) == [] && Readable(rd, v) && pos < v.id
    ensures 0 <= limit <= |Query(rd, table, pos, limit)| <==>
            forall more :: Records(Query(rd, table + more, pos, limit)) == []
    ensures Records(Query(rd, table + [v], pos, limit)) == [] <==> 0 <= limit <= |Query(rd, table, pos, limit)|
  {
    var q := Query(rd, table, pos, limit);
    if 0 <= limit <= |q| {
      forall more ensures Query(rd, table + more, pos, limit) == q { PastAppend(rd, table, more, pos); }
    } else {
      NewcomerShips(rd, table, pos, limit, v);
      RecordsMember(Query(rd, table + [v], pos, limit), v);
    }
  }

  lemma NewcomerShips(rd: Reader, table: seq<Row>, pos: int, limit: int, v: Row)
    requires Readable(rd, v) && pos < v.id && !(0 <= limit <= |Query(rd, table, pos, limit)|)
    ensures v in Query(rd, table + [v], pos, limit)
  {
    PastAppend(rd, table, [v], pos);
    assert [v][..0] == [];
    assert Past(rd, [v], pos) == [v];
  }

  // ---- inputs on which the promises fail ---------------------------------------------------

  /** One unreadable row, a limit of one, and a good row behind it. */
  lemma UnreadableRowWedges(rd: Reader, bad: Row, v: Row, more: seq<Row>)
    requires Selected(rd, bad) && !bad.parseable && bad.id == 1 && Readable(rd, v) && v.id == 2
    ensures Records(Query(rd, [bad], 0, 1)) == [] && Records(Query(rd, [bad, v] + more, 0, 1)) == []
  {
    assert [bad][..0] == [];
    assert Past(rd, [bad], 0) == [bad];
    WedgedIff(rd, [bad], 0, 1, v);
    assert [bad, v] + more == [bad] + ([v] + more);
  }

  /** A partial ack of the first of two rows: the second goes from the sink unsent. */
  lemma PartialAckLosesARow(rd: Reader, a: Row, b: Row)
    requires Readable(rd, a) && Readable(rd, b) && a.id == 1 && b.id == 2
    ensures var l := Ledger([a, b], [a, b], 0, 1, [[a]]);
      Consistent(l) && Held(rd, l) && Exact(rd, l, []) && b !in Committed(rd, l.table, 2) && b !in Flat(l.acked)
      && !Held(rd, l.(table := Committed(rd, l.table, 2)))
  {
    var l := Ledger([a, b], [a, b], 0, 1, [[a]]);
    FirstOfTwo(rd, a, b);
    PartialCommitKeepsIff(rd, l, 2);
    BetweenMember(rd, [a, b], 1, 2, b);
  }

  lemma FirstOfTwo(rd: Reader, a: Row, b: Row)
    requires Readable(rd, a) && a.id == 1 && b.id == 2
    ensures Records(Between(rd, [a, b], 0, 1)) == [a] && Flat([[a]]) == [a]
  {
    hide Selected;
    assert [a, b][..1] == [a] && [a][..0] == [] && [[a]][..0] == [];
    assert Between(rd, [a], 0, 1) == [a];
    assert Between(rd, [a, b], 0, 1) == [a];
  }

  /** A row in scope that the source does not select, before a good one: the good one's
      commit deletes it unsent. */
  lemma UnselectedRowGoesUnsent(rd: Reader, other: Row, good: Row)
    requires InScope(rd, other) && !Selected(rd, other) && Readable(rd, good) && other.id == 1 && good.id == 2
    ensures var l := Ledger([other, good], [other, good], 0, 2, [[good]]);
      && Consistent(l) && Exact(rd, l, []) && Query(rd, l.table, 0, 1) == [good]
      && other !in Committed(rd, l.table, 2) && other !in Flat(l.acked)
  {
    var l := Ledger([other, good], [other, good], 0, 2, [[good]]);
    hide Selected, InScope;
    assert [other, good][..1] == [other] && [other][..0] == [] && [good][..0] == [] && [[good]][..0] == [];
    assert Between(rd, [other], 0, 2) == [];
    assert Past(rd, [other], 0) == [];
    assert Between(rd, l.ever, 0, 2) == [good];
    assert Past(rd, l.ever, 0) == [good];
    assert Records([good]) == [good] && Flat([[good]]) == [good];
    hide Between, Past, Records, Flat;
    CommitDeletesUnsentIff(rd, l, other);
  }

  /** One is a row of an older schema. */
  lemma OldSchemaIsInScope(cols: Columns)
    ensures var rd, r := Reader(Source("psk", "spots", None, None, [2], []), cols), Row(1, "psk", "spots", 1, "", false, true, map[]);
      InScope(rd, r) && !Selected(rd, r) && Readable(rd, r.(id := 2, schema := 2))
  {
  }
}
