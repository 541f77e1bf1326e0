/** The batch query that ships one row of each partition (sources/sqlite.py,
    `_build_dedup_query`): what a run of it ships, and what it passes over. */
module WindowDedup {
  import opened Cursors
  import opened Sink
  import opened Selection
  import L = Ledger

  /** The window: the fields that make a partition and the one that ranks it; `cast`
      reads a value as a number, none where SQL has NULL. */
  datatype Window = Window(parts: seq<string>, ranked: string, cast: Sql -> Option<int>)

  predicate SamePart(w: Window, a: Row, b: Row) {
    forall i :: 0 <= i < |w.parts| ==> Extract(Field(a, w.parts[i])) == Extract(Field(b, w.parts[i]))
  }

  function Worth(w: Window, r: Row): Option<int> {
    w.cast(Extract(Field(r, w.ranked)))
  }

  /** `a` ranks before `b`: the larger value first, NULL last, then the smaller id. */
  predicate Beats(w: Window, a: Row, b: Row) {
    var x, y := Worth(w, a), Worth(w, b);
    || (x.Some? && y.Some? && x.value > y.value)
    || (x.Some? && y.None?)
    || (x == y && a.id < b.id)
  }

  /** A row of the window the query ranks: the cursor plays no part. */
  predicate Ranked(rd: Reader, w: Window, table: seq<Row>, r: Row, x: Row) {
    x in table && Selected(rd, x) && SamePart(w, x, r)
  }

  /** rn = 1 */
  predicate Wins(rd: Reader, w: Window, table: seq<Row>, r: Row) {
    && r in table && Selected(rd, r)
    && forall x :: x in table && Ranked(rd, w, table, r, x) && x != r ==> Beats(w, r, x)
  }

  /** partition_min_id > cur */
  predicate WhollyPast(rd: Reader, w: Window, table: seq<Row>, r: Row, cur: int) {
    forall x :: x in table && Ranked(rd, w, table, r, x) ==> x.id > cur
  }

  predicate Offers(rd: Reader, w: Window, table: seq<Row>, cur: int, r: Row) {
    Wins(rd, w, table, r) && r.id > cur && WhollyPast(rd, w, table, r, cur)
  }

  /** The outer SELECT over the first `n` rows, in id order. */
  function Offered(rd: Reader, w: Window, table: seq<Row>, cur: int, n: nat): seq<Row>
    requires n <= |table|
  {
    if n == 0 then []
    else Offered(rd, w, table, cur, n - 1) + if Offers(rd, w, table, cur, table[n - 1]) then [table[n - 1]] else []
  }

  /** The rows of one query; a negative LIMIT sets no limit. */
  function DedupQuery(rd: Reader, w: Window, table: seq<Row>, cur: int, limit: int): seq<Row> {
    var all := Offered(rd, w, table, cur, |table|);
    if limit < 0 || |all| <= limit then all else all[..limit]
  }

  // ---- ranking ------------------------------------------------------------------------

  lemma SamePartIsEquivalence(w: Window, a: Row, b: Row, c: Row)
    ensures SamePart(w, a, a)
    ensures SamePart(w, a, b) ==> SamePart(w, b, a)
    ensures SamePart(w, a, b) && SamePart(w, b, c) ==> SamePart(w, a, c)
  {
  }

  /** Ranking is a strict total order on rows of distinct ids. */
  lemma BeatsIsStrictTotal(w: Window, a: Row, b: Row, c: Row)
    ensures !(Beats(w, a, b) && Beats(w, b, a))
    ensures Beats(w, a, b) && Beats(w, b, c) ==> Beats(w, a, c)
    ensures a.id != b.id ==> Beats(w, a, b) || Beats(w, b, a)
  {
  }

  /** One row of a partition at most ranks first. */
  lemma OneWinner(rd: Reader, w: Window, table: seq<Row>, a: Row, b: Row)
    requires Wins(rd, w, table, a) && Wins(rd, w, table, b) && SamePart(w, a, b)
    ensures a == b
  {
    SamePartIsEquivalence(w, a, b, a);
    BeatsIsStrictTotal(w, a, b, a);
    hide SamePart, Beats, Selected;
    assert Ranked(rd, w, table, a, b) && Ranked(rd, w, table, b, a);
  }

  /** Every partition has one. */
  lemma {:induction false} HasWinner(rd: Reader, w: Window, table: seq<Row>, r: Row) returns (v: Row)
    requires Sorted(table) && r in table && Selected(rd, r)
    ensures Wins(rd, w, table, v) && SamePart(w, v, r)
  {
    hide SamePart, Beats, Selected;
    SamePartIsEquivalence(w, r, r, r);
    v := r;
    for n := 0 to |table|
      invariant v in table && Selected(rd, v) && SamePart(w, v, r) && SamePart(w, r, v)
      invariant forall k :: 0 <= k < n && Selected(rd, table[k]) && SamePart(w, table[k], v) && table[k] != v ==> Beats(w, v, table[k])
    {
      var x := table[n];
      SamePartIsEquivalence(w, x, v, r);
      SamePartIsEquivalence(w, r, v, x);
      if Selected(rd, x) && SamePart(w, x, v) && x != v {
        var i :| 0 <= i < |table| && table[i] == v;
        BeatsIsStrictTotal(w, v, x, v);
        if !Beats(w, v, x) {
          TakesOver(rd, w, table, n, v, x);
          SamePartIsEquivalence(w, x, r, v);
          SamePartIsEquivalence(w, r, x, v);
          v := x;
        }
      }
    }
    WinsByIndex(rd, w, table, v);
  }

  lemma TakesOver(rd: Reader, w: Window, table: seq<Row>, n: nat, v: Row, x: Row)
    requires n <= |table| && Beats(w, x, v) && SamePart(w, x, v)
    requires forall k :: 0 <= k < n && Selected(rd, table[k]) && SamePart(w, table[k], v) && table[k] != v ==> Beats(w, v, table[k])
    ensures forall k :: 0 <= k < n && Selected(rd, table[k]) && SamePart(w, table[k], x) && table[k] != x ==> Beats(w, x, table[k])
  {
    hide SamePart, Beats, Selected;
    forall k | 0 <= k < n && Selected(rd, table[k]) && SamePart(w, table[k], x) && table[k] != x
      ensures Beats(w, x, table[k])
    {
      SamePartIsEquivalence(w, table[k], x, v);
      BeatsIsStrictTotal(w, x, v, table[k]);
    }
  }

  lemma WinsByIndex(rd: Reader, w: Window, table: seq<Row>, v: Row)
    requires v in table && Selected(rd, v)
    requires forall k :: 0 <= k < |table| && Selected(rd, table[k]) && SamePart(w, table[k], v) && table[k] != v ==> Beats(w, v, table[k])
    ensures Wins(rd, w, table, v)
  {
    hide SamePart, Beats, Selected;
    forall x | x in table && Ranked(rd, w, table, v, x) && x != v ensures Beats(w, v, x) {
      var k :| 0 <= k < |table| && table[k] == x;
    }
  }

  // ---- the query ------------------------------------------------------------------------

  lemma {:induction false} OfferedMember(rd: Reader, w: Window, table: seq<Row>, cur: int, n: nat, r: Row)
    requires n <= |table|
    ensures r in Offered(rd, w, table, cur, n) <==> r in table[..n] && Offers(rd, w, table, cur, r)
  {
    hide Offers;
    if n > 0 {
      OfferedMember(rd, w, table, cur, n - 1, r);
      assert table[..n] == table[..n - 1] + [table[n - 1]];
    }
  }

  lemma {:induction false} OfferedSorted(rd: Reader, w: Window, table: seq<Row>, cur: int, n: nat)
    requires Sorted(table) && n <= |table|
    ensures Sorted(Offered(rd, w, table, cur, n))
  {
    hide Offers;
    if n > 0 {
      OfferedSorted(rd, w, table, cur, n - 1);
      forall x | x in Offered(rd, w, table, cur, n - 1) ensures x.id < table[n - 1].id {
        OfferedMember(rd, w, table, cur, n - 1, x);
        var i :| 0 <= i < n - 1 && table[..n - 1][i] == x;
      }
    }
  }

  /** Whether the LIMIT leaves rows out. */
  predicate Cuts(rd: Reader, w: Window, table: seq<Row>, cur: int, limit: int) {
    0 <= limit < |Offered(rd, w, table, cur, |table|)|
  }

  /** A query ships only rank-1 rows of partitions wholly past the cursor, in id order. */
  lemma QueryOffers(rd: Reader, w: Window, table: seq<Row>, cur: int, limit: int)
    requires Sorted(table)
    ensures var q := DedupQuery(rd, w, table, cur, limit);
      && Sorted(q) && (forall r :: r in q ==> Offers(rd, w, table, cur, r))
      && (!Cuts(rd, w, table, cur, limit) <==> forall r :: Offers(rd, w, table, cur, r) ==> r in q)
  {
    hide Offers;
    OfferedSorted(rd, w, table, cur, |table|);
    assert table[..|table|] == table;
    var all := Offered(rd, w, table, cur, |table|);
    forall r ensures r in all <==> r in table && Offers(rd, w, table, cur, r) {
      OfferedMember(rd, w, table, cur, |table|, r);
    }
    forall r | Offers(rd, w, table, cur, r) ensures r in table { OfferedInTable(rd, w, table, cur, r); }
    if 0 <= limit < |all| {
      assert all[limit] in all;
      NotInFront(all, limit);
    }
  }

  lemma NotInFront(rows: seq<Row>, n: nat)
    requires Sorted(rows) && n < |rows|
    ensures rows[n] !in rows[..n]
  {
  }

  lemma OfferedInTable(rd: Reader, w: Window, table: seq<Row>, cur: int, r: Row)
    requires Offers(rd, w, table, cur, r)
    ensures r in table && Selected(rd, r) && cur < r.id
  {
  }

  /** A batch the LIMIT does not cut ships every partition lying wholly past the
      cursor, by its best row. */
  lemma UncutCovers(rd: Reader, w: Window, table: seq<Row>, cur: int, limit: int, r: Row) returns (v: Row)
    requires Sorted(table) && r in table && Selected(rd, r) && WhollyPast(rd, w, table, r, cur)
    requires !Cuts(rd, w, table, cur, limit)
    ensures v in DedupQuery(rd, w, table, cur, limit) && SamePart(w, v, r) && Wins(rd, w, table, v)
  {
    v := PastOffered(rd, w, table, cur, r);
    hide Offers, Wins, WhollyPast, SamePart, Selected;
    QueryOffers(rd, w, table, cur, limit);
  }

  lemma PastOffered(rd: Reader, w: Window, table: seq<Row>, cur: int, r: Row) returns (v: Row)
    requires Sorted(table) && r in table && Selected(rd, r) && WhollyPast(rd, w, table, r, cur)
    ensures Offers(rd, w, table, cur, v) && SamePart(w, v, r) && Wins(rd, w, table, v)
  {
    v := HasWinner(rd, w, table, r);
    hide SamePart, Selected, Beats;
    assert Ranked(rd, w, table, r, v);
    forall x | x in table && Ranked(rd, w, table, v, x) ensures x.id > cur {
      SamePartIsEquivalence(w, x, v, r);
      assert Ranked(rd, w, table, r, x);
    }
  }

  /** Once a row of a partition is at or below the cursor, no later query, over any
      rows appended since, offers the partition again. */
  lemma NeverOfferedAgain(rd: Reader, w: Window, table: seq<Row>, table': seq<Row>, cur: int, cur': int, x: Row, v: Row)
    requires x in table && Selected(rd, x) && x.id <= cur <= cur' && SamePart(w, x, v)
    requires forall y :: y in table ==> y in table'
    ensures !Offers(rd, w, table', cur', v)
  {
    hide SamePart, Selected, Wins;
    assert Ranked(rd, w, table', v, x);
  }

  /** The partitions a LIMIT passes over: of those it cut off, a partition with a row at
      or below the batch's last id is lost for good, every other is offered still. */
  lemma PassedOverIff(rd: Reader, w: Window, table: seq<Row>, cur: int, limit: int, v: Row)
    requires Sorted(table) && Offers(rd, w, table, cur, v)
    requires DedupQuery(rd, w, table, cur, limit) != [] && v !in DedupQuery(rd, w, table, cur, limit)
    ensures var q := DedupQuery(rd, w, table, cur, limit); var last := q[|q| - 1].id;
      (exists x :: x in table && Ranked(rd, w, table, v, x) && x.id <= last) <==> !Offers(rd, w, table, last, v)
    ensures var q := DedupQuery(rd, w, table, cur, limit); var last := q[|q| - 1].id;
      !Offers(rd, w, table, last, v) ==>
        forall table': seq<Row>, cur': int, y: Row ::
          (forall z :: z in table ==> z in table') && last <= cur' && SamePart(w, v, y) ==> !Offers(rd, w, table', cur', y)
  {
    var q := DedupQuery(rd, w, table, cur, limit);
    var last := q[|q| - 1].id;
    CutIsLater(rd, w, table, cur, limit, v);
    hide DedupQuery, SamePart, Selected, Wins, Offered;
    if x :| x in table && Ranked(rd, w, table, v, x) && x.id <= last {
      forall table': seq<Row>, cur': int, y: Row
        | (forall z :: z in table ==> z in table') && last <= cur' && SamePart(w, v, y)
        ensures !Offers(rd, w, table', cur', y)
      {
        SamePartIsEquivalence(w, x, v, y);
        NeverOfferedAgain(rd, w, table, table', last, cur', x, y);
      }
    }
  }

  /** What the LIMIT cut off has a larger id than everything it let through. */
  lemma CutIsLater(rd: Reader, w: Window, table: seq<Row>, cur: int, limit: int, v: Row)
    requires Sorted(table) && Offers(rd, w, table, cur, v)
    requires DedupQuery(rd, w, table, cur, limit) != [] && v !in DedupQuery(rd, w, table, cur, limit)
    ensures var q := DedupQuery(rd, w, table, cur, limit); q[|q| - 1].id < v.id
  {
    OfferedInTable(rd, w, table, cur, v);
    hide Offers;
    var all := Offered(rd, w, table, cur, |table|);
    OfferedSorted(rd, w, table, cur, |table|);
    OfferedMember(rd, w, table, cur, |table|, v);
    assert table[..|table|] == table;
    var i :| 0 <= i < |all| && all[i] == v;
    var q := DedupQuery(rd, w, table, cur, limit);
    assert forall k :: 0 <= k < |q| ==> q[k] in q && q[k] == all[k];
  }

  /** Where a LIMIT loses a partition: {3, 10} won by 10, and {5}; one row a batch. */
  lemma LimitLosesAPartition(rd: Reader, w: Window, a: Row, b: Row, c: Row)
    requires a.id == 3 && b.id == 5 && c.id == 10 && Selected(rd, a) && Selected(rd, b) && Selected(rd, c)
    requires SamePart(w, c, a) && !SamePart(w, a, b) && !SamePart(w, b, a) && !SamePart(w, c, b) && !SamePart(w, b, c)
    requires Beats(w, c, a)
    ensures Offers(rd, w, [a, b, c], 0, c) && DedupQuery(rd, w, [a, b, c], 0, 1) == [b] && !Offers(rd, w, [a, b, c], 5, c)
  {
    hide SamePart, Selected, Beats;
    SamePartIsEquivalence(w, c, a, c);
    SamePartIsEquivalence(w, b, b, b);
    BeatsIsStrictTotal(w, c, a, c);
    var t := [a, b, c];
    assert t[0] == a && t[1] == b && t[2] == c;
    assert !Offers(rd, w, t, 0, a) by { assert Ranked(rd, w, t, a, c); }
    assert Offers(rd, w, t, 0, b) && Offers(rd, w, t, 0, c);
    assert Ranked(rd, w, t, c, a);
    hide Offers;
    assert Offered(rd, w, t, 0, 0) == [];
    assert Offered(rd, w, t, 0, 1) == [];
    assert Offered(rd, w, t, 0, 2) == [b];
    assert Offered(rd, w, t, 0, 3) == [b, c];
  }

  // ---- deleting acked rows as well ----------------------------------------------------------

  lemma SelectedInScope(rd: Reader, r: Row)
    requires Selected(rd, r)
    ensures InScope(rd, r)
  {
  }

  /** A source that deletes what it shipped forgets the partition: it is offered again
      exactly when it has a row past the cursor. So one partition ships once only
      while the rows stay. */
  lemma DeletingOffersAgainIff(rd: Reader, w: Window, table: seq<Row>, cur: int, r: Row)
    requires Sorted(table) && r in table && Selected(rd, r)
    ensures (exists x :: x in table && Ranked(rd, w, table, r, x) && x.id > cur) <==>
            (exists v :: v in L.Committed(rd, table, cur) && SamePart(w, v, r) && Offers(rd, w, L.Committed(rd, table, cur), cur, v))
  {
    var kept := L.Committed(rd, table, cur);
    L.CommittedSorted(rd, table, cur);
    hide SamePart, Selected, InScope, Beats, L.Committed;
    if x :| x in table && Ranked(rd, w, table, r, x) && x.id > cur {
      forall y | y in kept && Ranked(rd, w, kept, x, y) ensures y.id > cur {
        SelectedInScope(rd, y);
      }
      var v := PastOffered(rd, w, kept, cur, x);
      SamePartIsEquivalence(w, v, x, r);
      assert v in kept && SamePart(w, v, r) && Offers(rd, w, kept, cur, v);
    }
    if v :| v in kept && SamePart(w, v, r) && Offers(rd, w, kept, cur, v) {
      OfferedInTable(rd, w, kept, cur, v);
      assert Ranked(rd, w, table, r, v);
    }
  }

  /** One that is: two rows, the better one shipped and deleted, and the other ships too. */
  lemma DeletingShipsTwice(rd: Reader, w: Window, a: Row, b: Row)
    requires a.id == 1 && b.id == 2 && Selected(rd, a) && Selected(rd, b) && SamePart(w, b, a) && Beats(w, a, b)
    ensures DedupQuery(rd, w, [a, b], 0, -1) == [a]
    ensures exists v :: v in L.Committed(rd, [a, b], 1) && SamePart(w, v, a) && Offers(rd, w, L.Committed(rd, [a, b], 1), 1, v)
  {
    var t := [a, b];
    assert t[0] == a && t[1] == b;
    SamePartIsEquivalence(w, b, a, a);
    BeatsIsStrictTotal(w, a, b, a);
    hide SamePart, Selected, Beats, L.Committed;
    assert Ranked(rd, w, t, a, b);
    DeletingOffersAgainIff(rd, w, t, 1, a);
    assert Ranked(rd, w, t, b, a);
    assert Offers(rd, w, t, 0, a) && !Offers(rd, w, t, 0, b);
    hide Offers;
    assert Offered(rd, w, t, 0, 0) == [];
    assert Offered(rd, w, t, 0, 1) == [a];
    assert Offered(rd, w, t, 0, 2) == [a];
  }

  // ---- whole runs -----------------------------------------------------------------------------

  /** A delivered row and the sink its query saw. */
  datatype Delivered = Delivered(row: Row, seen: seq<Row>)

  /** What a run kept: every delivered row is at or below the cursor, was the best of its
      partition's rows then present, and no partition was delivered twice. */
  ghost predicate OncePerPartition(rd: Reader, w: Window, table: seq<Row>, cur: int, log: seq<Delivered>) {
    && (forall i :: 0 <= i < |log| ==> Sound(rd, w, table, cur, log[i]))
    && (forall i, j :: 0 <= i < j < |log| ==> !SamePart(w, log[i].row, log[j].row))
  }

  ghost predicate Sound(rd: Reader, w: Window, table: seq<Row>, cur: int, d: Delivered) {
    && d.row in table && Selected(rd, d.row) && d.row.id <= cur
    && d.seen <= table && Wins(rd, w, d.seen, d.row)
  }

  /** One pipeline over the window query: rows are only appended, and the cursor only
      follows delivered batches. */
  class WindowPipeline {
    const rd: Reader
    const w: Window
    var table: seq<Row>
    var cur: int
    ghost var log: seq<Delivered>

    ghost predicate Valid()
      reads this
    {
      Sorted(table) && OncePerPartition(rd, w, table, cur, log)
    }

    constructor (rd: Reader, w: Window, table: seq<Row>, cur: int)
      requires Sorted(table)
      ensures Valid() && log == [] && this.table == table && this.cur == cur && this.rd == rd && this.w == w
    {
      this.rd, this.w, this.table, this.cur, log := rd, w, table, cur, [];
    }

    method Arrive(rows: seq<Row>)
      requires Valid() && Sorted(table + rows)
      modifies `table
      ensures Valid() && table == old(table) + rows
    {
      hide OncePerPartition;
      StillOnce(rd, w, table, table + rows, cur, cur, log);
      table := table + rows;
    }

    /** One batch offered to the transport; a batch whose payloads are all unreadable is
        none. `acked`: the outcome. */
    method Pump(limit: int, acked: bool) returns (batch: seq<Row>)
      requires Valid()
      modifies `cur, `log
      ensures Valid() && old(cur) <= cur && old(log) <= log
      ensures batch == Records(DedupQuery(rd, w, table, old(cur), limit))
      ensures batch == [] || !acked ==> cur == old(cur) && log == old(log)
      ensures batch != [] && acked ==>
                && cur == DedupQuery(rd, w, table, old(cur), limit)[|DedupQuery(rd, w, table, old(cur), limit)| - 1].id
                && |log| == |old(log)| + |batch|
                && forall i :: 0 <= i < |batch| ==> log[|old(log)| + i] == Delivered(batch[i], table)
    {
      hide OncePerPartition, DedupQuery, Records;
      var rows := DedupQuery(rd, w, table, cur, limit);
      batch := Records(rows);
      if batch == [] || !acked { return; }
      EmptyRecords();
      var last := rows[|rows| - 1].id;
      ghost var seen, shipped := table, batch;
      ghost var more := seq(|shipped|, i requires 0 <= i < |shipped| => Delivered(shipped[i], seen));
      BatchKeepsOnce(rd, w, table, cur, limit, log, more);
      log := log + more;
      cur := last;
    }
  }

  /** The rows of a batch, each with the sink its query saw. */
  ghost predicate Shipped(table: seq<Row>, batch: seq<Row>, more: seq<Delivered>) {
    |more| == |batch| && forall i :: 0 <= i < |more| ==> more[i] == Delivered(batch[i], table)
  }

  /** A batch ships partitions that never shipped, one row each. */
  lemma BatchKeepsOnce(rd: Reader, w: Window, table: seq<Row>, cur: int, limit: int, log: seq<Delivered>, more: seq<Delivered>)
    requires Sorted(table) && OncePerPartition(rd, w, table, cur, log) && DedupQuery(rd, w, table, cur, limit) != []
    requires Shipped(table, Records(DedupQuery(rd, w, table, cur, limit)), more)
    ensures var rows := DedupQuery(rd, w, table, cur, limit); var last := rows[|rows| - 1].id;
      cur < last && OncePerPartition(rd, w, table, last, log + more)
  {
    var rows := DedupQuery(rd, w, table, cur, limit);
    var last := rows[|rows| - 1].id;
    hide SamePart, Selected, Wins, Offers, DedupQuery, Records, Sorted, OncePerPartition, Sound, Shipped;
    BatchSound(rd, w, table, cur, limit, more);
    QueryOffers(rd, w, table, cur, limit);
    BatchSpread(rd, w, table, cur, rows, more);
    OldAndNew(rd, w, table, cur, log, more);
    StillOnce(rd, w, table, table, cur, last, log);
    Joined(rd, w, table, last, log, more);
  }

  lemma BatchSound(rd: Reader, w: Window, table: seq<Row>, cur: int, limit: int, more: seq<Delivered>)
    requires Sorted(table) && DedupQuery(rd, w, table, cur, limit) != []
    requires Shipped(table, Records(DedupQuery(rd, w, table, cur, limit)), more)
    ensures var rows := DedupQuery(rd, w, table, cur, limit); var last := rows[|rows| - 1].id;
      && cur < last
      && forall i :: 0 <= i < |more| ==> Sound(rd, w, table, last, more[i]) && Offers(rd, w, table, cur, more[i].row)
  {
    var rows := DedupQuery(rd, w, table, cur, limit);
    QueryOffers(rd, w, table, cur, limit);
    hide SamePart, Selected, Wins, Offers, DedupQuery, Records, Sorted, Sound;
    assert rows[|rows| - 1] in rows;
    OfferedInTable(rd, w, table, cur, rows[|rows| - 1]);
    forall i | 0 <= i < |more|
      ensures Sound(rd, w, table, rows[|rows| - 1].id, more[i]) && Offers(rd, w, table, cur, more[i].row)
    {
      RecordsMember(rows, more[i].row);
      NewIsSound(rd, w, table, cur, rows, more[i].row);
    }
  }

  lemma BatchSpread(rd: Reader, w: Window, table: seq<Row>, cur: int, rows: seq<Row>, more: seq<Delivered>)
    requires Sorted(rows) && Shipped(table, Records(rows), more)
    requires forall i :: 0 <= i < |more| ==> Offers(rd, w, table, cur, more[i].row)
    ensures forall i, j :: 0 <= i < j < |more| ==> !SamePart(w, more[i].row, more[j].row)
  {
    RecordsSorted(rows);
    hide SamePart, Offers, Records, Sorted;
    forall i, j | 0 <= i < j < |more| ensures !SamePart(w, more[i].row, more[j].row) {
      BatchApart(rd, w, table, cur, Records(rows), i, j);
    }
  }

  lemma OldAndNew(rd: Reader, w: Window, table: seq<Row>, cur: int, log: seq<Delivered>, more: seq<Delivered>)
    requires OncePerPartition(rd, w, table, cur, log)
    requires forall i :: 0 <= i < |more| ==> Offers(rd, w, table, cur, more[i].row)
    ensures forall i, j :: 0 <= i < |log| && 0 <= j < |more| ==> !SamePart(w, log[i].row, more[j].row)
  {
    hide SamePart, Offers, Selected, Wins;
    forall i, j | 0 <= i < |log| && 0 <= j < |more| ensures !SamePart(w, log[i].row, more[j].row) {
      assert Sound(rd, w, table, cur, log[i]);
      if SamePart(w, log[i].row, more[j].row) {
        NeverOfferedAgain(rd, w, table, table, cur, cur, log[i].row, more[j].row);
      }
    }
  }

  lemma Joined(rd: Reader, w: Window, table: seq<Row>, cur: int, log: seq<Delivered>, more: seq<Delivered>)
    requires OncePerPartition(rd, w, table, cur, log)
    requires forall i :: 0 <= i < |more| ==> Sound(rd, w, table, cur, more[i])
    requires forall i, j :: 0 <= i < j < |more| ==> !SamePart(w, more[i].row, more[j].row)
    requires forall i, j :: 0 <= i < |log| && 0 <= j < |more| ==> !SamePart(w, log[i].row, more[j].row)
    ensures OncePerPartition(rd, w, table, cur, log + more)
  {
    hide SamePart, Sound;
    var all := log + more;
    forall i | 0 <= i < |all| ensures Sound(rd, w, table, cur, all[i]) {
      if i >= |log| { assert all[i] == more[i - |log|]; }
    }
    forall i, j | 0 <= i < j < |all| ensures !SamePart(w, all[i].row, all[j].row) {
      if j >= |log| { assert all[j] == more[j - |log|]; }
      if i >= |log| { assert all[i] == more[i - |log|]; }
    }
  }

  lemma NewIsSound(rd: Reader, w: Window, table: seq<Row>, cur: int, rows: seq<Row>, r: Row)
    requires Sorted(rows) && r in rows && Offers(rd, w, table, cur, r)
    ensures Sound(rd, w, table, rows[|rows| - 1].id, Delivered(r, table))
  {
    hide SamePart, Selected, Beats;
    var k :| 0 <= k < |rows| && rows[k] == r;
  }

  lemma BatchApart(rd: Reader, w: Window, table: seq<Row>, cur: int, batch: seq<Row>, i: nat, j: nat)
    requires i < j < |batch| && Sorted(batch)
    requires Offers(rd, w, table, cur, batch[i]) && Offers(rd, w, table, cur, batch[j])
    ensures !SamePart(w, batch[i], batch[j])
  {
    hide SamePart, Wins;
    if SamePart(w, batch[i], batch[j]) { OneWinner(rd, w, table, batch[i], batch[j]); }
  }

  lemma {:induction false} RecordsSorted(rows: seq<Row>)
    requires Sorted(rows)
    ensures Sorted(Records(rows))
  {
    if rows != [] {
      var front := rows[..|rows| - 1];
      RecordsSorted(front);
      forall x | x in Records(front) ensures x.id < rows[|rows| - 1].id {
        RecordsMember(front, x);
        var i :| 0 <= i < |front| && front[i] == x;
      }
    }
  }

  lemma EmptyRecords()
    ensures Records([]) == []
  {
  }

  lemma StillOnce(rd: Reader, w: Window, table: seq<Row>, table': seq<Row>, cur: int, cur': int, log: seq<Delivered>)
    requires OncePerPartition(rd, w, table, cur, log) && table <= table' && cur <= cur'
    ensures OncePerPartition(rd, w, table', cur', log)
  {
    hide SamePart, Selected, Wins;
    forall i | 0 <= i < |log| ensures Sound(rd, w, table', cur', log[i]) {
      assert Sound(rd, w, table, cur, log[i]);
    }
  }
}
