/** Event-driven cycle completion (wspr_completion.py) and the source that ships
    whole cycles by it (wspr_cycle.py). Rows may arrive between any two queries. */
module WsprCycles {
  import opened Cursors

  const CYCLE_SECONDS: int := 120
  const WARNED_CAP: nat := 256

  /** A cycle key is a text; texts are named by their place in text order. */
  type Cycle = int
  type Reporter = nat

  /** The empty text, before every key. */
  const EMPTY: Cycle := -1

  datatype Table = Spots | Noise

  /** A queued row of either table; `reporter`: its receiver, when it names one;
      `parses`: its payload is readable; `local`: the row is not for this server. */
  datatype Row = Row(table: Table, cycle: Cycle, reporter: Option<Reporter>, parses: bool, local: bool)

  /** How times and cycle keys relate: `when` reads a key, `iso` prints a time. */
  datatype Clock = Clock(when: Cycle -> Option<int>, iso: int -> Cycle)

  /** What gates a cycle: the receivers that must report, and how long to wait for them. */
  datatype Gating = Gating(expected: set<Reporter>, backstop: int)

  /** Printed times are read back, and sort as they fall. */
  ghost predicate Faithful(clock: Clock) {
    && (forall t :: clock.when(clock.iso(t)) == Some(t))
    && forall s, t :: s < t ==> clock.iso(s) < clock.iso(t)
  }

  /** The start of the cycle in progress. */
  function CurrentFloor(now: int): (floor: int)
    ensures floor % CYCLE_SECONDS == 0 && floor <= now < floor + CYCLE_SECONDS
  {
    now - now % CYCLE_SECONDS
  }

  // ---- the rows of a cycle -----------------------------------------------------------

  predicate Present(rows: seq<Row>, c: Cycle) {
    exists i :: 0 <= i < |rows| && rows[i].cycle == c
  }

  /** A row of the cycle that a batch would carry. */
  predicate Carried(r: Row, c: Cycle) {
    r.cycle == c && !r.local && r.parses
  }

  predicate Shows(rows: seq<Row>, c: Cycle) {
    exists i :: 0 <= i < |rows| && Carried(rows[i], c)
  }

  predicate Reported(rows: seq<Row>, c: Cycle, who: Reporter) {
    exists i :: 0 <= i < |rows| && rows[i].table == Noise && rows[i].cycle == c && rows[i].reporter == Some(who)
  }

  predicate Complete(rows: seq<Row>, c: Cycle, expected: set<Reporter>) {
    forall who :: who in expected ==> Reported(rows, c, who)
  }

  /** A cycle every expected receiver has written, or older than the backstop, or of no readable time. */
  predicate Shippable(rows: seq<Row>, c: Cycle, g: Gating, clock: Clock, now: int) {
    || Complete(rows, c, g.expected)
    || clock.when(c).None?
    || clock.when(c).value < now - (CYCLE_SECONDS + g.backstop)
  }

  lemma StaysShippable(rows: seq<Row>, rows': seq<Row>, c: Cycle, g: Gating, clock: Clock, now: int)
    requires rows <= rows' && Shippable(rows, c, g, clock, now)
    ensures Shippable(rows', c, g, clock, now)
  {
    if Complete(rows, c, g.expected) {
      forall who | who in g.expected ensures Reported(rows', c, who) {
        assert Reported(rows, c, who);
        var i :| 0 <= i < |rows| && rows[i].table == Noise && rows[i].cycle == c && rows[i].reporter == Some(who);
        assert rows'[i] == rows[i];
      }
    }
  }

  lemma StaysShown(rows: seq<Row>, rows': seq<Row>, c: Cycle)
    requires rows <= rows' && Shows(rows, c)
    ensures Shows(rows', c)
  {
    var i :| 0 <= i < |rows| && Carried(rows[i], c);
    assert rows'[i] == rows[i];
  }

  // ---- the distinct cycles of a query, oldest first ---------------------------------------

  predicate Increasing(cs: seq<Cycle>) {
    forall i, j :: 0 <= i < j < |cs| ==> cs[i] < cs[j]
  }

  function Inserted(cs: seq<Cycle>, c: Cycle): (r: seq<Cycle>)
    requires Increasing(cs)
    ensures Increasing(r) && forall d :: d in r <==> d in cs || d == c
  {
    if cs == [] then [c]
    else if c == cs[0] then cs
    else if c < cs[0] then [c] + cs
    else
      assert forall d :: d in cs <==> d == cs[0] || d in cs[1..];
      var rest := Inserted(cs[1..], c);
      assert forall i :: 0 <= i < |rest| ==> rest[i] in rest;
      [cs[0]] + rest
  }

  /** SELECT DISTINCT ... ORDER BY cycle: of every row, or of those for this server. */
  function Distinct(rows: seq<Row>, lo: Cycle, hi: Cycle, everyRow: bool): (cs: seq<Cycle>)
    ensures Increasing(cs)
    ensures forall c :: c in cs <==> lo < c < hi && Matches(rows, c, everyRow)
  {
    if rows == [] then []
    else
      var n := |rows| - 1;
      var rest := Distinct(rows[..n], lo, hi, everyRow);
      var r := rows[n];
      MatchesLast(rows, everyRow);
      if (everyRow || !r.local) && lo < r.cycle < hi then Inserted(rest, r.cycle) else rest
  }

  predicate Matches(rows: seq<Row>, c: Cycle, everyRow: bool) {
    exists i :: 0 <= i < |rows| && rows[i].cycle == c && (everyRow || !rows[i].local)
  }

  lemma MatchesLast(rows: seq<Row>, everyRow: bool)
    requires rows != []
    ensures var n := |rows| - 1;
      forall c :: Matches(rows, c, everyRow) <==>
                  Matches(rows[..n], c, everyRow) || (rows[n].cycle == c && (everyRow || !rows[n].local))
  {
    var n := |rows| - 1;
    forall c | Matches(rows, c, everyRow)
      ensures Matches(rows[..n], c, everyRow) || (rows[n].cycle == c && (everyRow || !rows[n].local))
    {
      var i :| 0 <= i < |rows| && rows[i].cycle == c && (everyRow || !rows[i].local);
      if i < n { assert rows[..n][i] == rows[i]; }
    }
    forall c | Matches(rows[..n], c, everyRow) ensures Matches(rows, c, everyRow) {
      var i :| 0 <= i < n && rows[..n][i].cycle == c && (everyRow || !rows[..n][i].local);
      assert rows[i] == rows[..n][i];
    }
  }

  // ---- the ceiling -----------------------------------------------------------------------

  /** The end of the longest run of present cycles, after the cursor and before the
      one in progress, that may ship. `first`: the rows when the walk began, which
      names the cycles; `last`: the rows when it ended, so a cycle that completes
      meanwhile may count or not. */
  ghost predicate IsCeiling(first: seq<Row>, last: seq<Row>, cursor: Cycle, floor: Cycle, g: Gating, clock: Clock, now: int,
                            r: Option<Cycle>)
  {
    var reach := if r.Some? then r.value else cursor;
    && (r.Some? ==> Present(first, reach) && cursor < reach < floor)
    && (forall d :: Present(first, d) && cursor < d <= reach ==> Shippable(last, d, g, clock, now))
    && (forall d :: Present(first, d) && reach < d < floor ==> Blocked(first, reach, d, g, clock, now))
  }

  /** Some present cycle past `reach`, up to `d`, may not ship. */
  ghost predicate Blocked(first: seq<Row>, reach: Cycle, d: Cycle, g: Gating, clock: Clock, now: int) {
    exists e :: reach < e <= d && Present(first, e) && !Shippable(first, e, g, clock, now)
  }

  /** With no row arriving meanwhile, there is one answer. */
  lemma CeilingIsUnique(rows: seq<Row>, cursor: Cycle, floor: Cycle, g: Gating, clock: Clock, now: int,
                        a: Option<Cycle>, b: Option<Cycle>)
    requires IsCeiling(rows, rows, cursor, floor, g, clock, now, a) && IsCeiling(rows, rows, cursor, floor, g, clock, now, b)
    ensures a == b
  {
    var ra := if a.Some? then a.value else cursor;
    var rb := if b.Some? then b.value else cursor;
    NotBlocked(rows, ra, rb, g, clock, now);
    NotBlocked(rows, rb, ra, g, clock, now);
  }

  /** A run of cycles that may ship has no blocked one in it. */
  lemma NotBlocked(first: seq<Row>, reach: Cycle, d: Cycle, g: Gating, clock: Clock, now: int)
    ensures (forall e :: Present(first, e) && reach < e <= d ==> Shippable(first, e, g, clock, now)) ==>
              !Blocked(first, reach, d, g, clock, now)
  {
  }

  /** No dead receiver stalls the queue: once every present cycle up to `c` ended longer
      ago than the backstop, the ceiling reaches `c`. */
  lemma NeverStalls(first: seq<Row>, last: seq<Row>, cursor: Cycle, floor: Cycle, g: Gating, clock: Clock, now: int,
                    r: Option<Cycle>, c: Cycle)
    requires IsCeiling(first, last, cursor, floor, g, clock, now, r) && Present(first, c) && cursor < c < floor
    requires forall d :: Present(first, d) && cursor < d <= c && clock.when(d).Some? ==>
               clock.when(d).value + CYCLE_SECONDS + g.backstop < now
    ensures r.Some? && c <= r.value
  {
    NotBlocked(first, if r.Some? then r.value else cursor, c, g, clock, now);
  }

  /** A cycle before the one in progress has ended, when its key is a printed even minute. */
  lemma NotInProgress(clock: Clock, now: int, t: int)
    requires Faithful(clock) && t % CYCLE_SECONDS == 0 && clock.iso(t) < clock.iso(CurrentFloor(now))
    ensures t + CYCLE_SECONDS <= now
  {
    var floor := CurrentFloor(now);
    assert floor < t ==> clock.iso(floor) < clock.iso(t);
    Multiples(t, floor);
  }

  lemma Multiples(a: int, b: int)
    requires a % CYCLE_SECONDS == 0 && b % CYCLE_SECONDS == 0 && a < b
    ensures a + CYCLE_SECONDS <= b
  {
  }

  /** The sink the receivers write into while this source reads. */
  class Sink {
    var rows: seq<Row>

    /** What the receivers wrote meanwhile. */
    method Others()
      modifies this
      ensures old(rows) <= rows
    {
      var more: seq<Row> := *;
      rows := rows + more;
    }
  }

  /** What one cycle's batch carries. */
  datatype Batch = Batch(records: seq<Row>, cursorAfter: Cycle)

  function RecordsOf(rows: seq<Row>, c: Cycle): (rs: seq<Row>)
    ensures (rs != []) == Shows(rows, c)
    ensures forall r :: r in rs ==> Carried(r, c) && r in rows
  {
    if rows == [] then []
    else
      var n := |rows| - 1;
      ShowsLast(rows, c);
      RecordsOf(rows[..n], c) + if Carried(rows[n], c) then [rows[n]] else []
  }

  lemma OneMore(rows: seq<Row>, i: nat, c: Cycle)
    requires i < |rows|
    ensures RecordsOf(rows[..i + 1], c) == RecordsOf(rows[..i], c) + if Carried(rows[i], c) then [rows[i]] else []
  {
    assert rows[..i + 1][..i] == rows[..i];
  }

  lemma ShowsLast(rows: seq<Row>, c: Cycle)
    requires rows != []
    ensures Shows(rows, c) <==> Shows(rows[..|rows| - 1], c) || Carried(rows[|rows| - 1], c)
  {
    var n := |rows| - 1;
    if Shows(rows, c) {
      var i :| 0 <= i < |rows| && Carried(rows[i], c);
      if i < n { assert rows[..n][i] == rows[i]; }
    }
    if Shows(rows[..n], c) { StaysShown(rows[..n], rows, c); }
  }

  class WsprCycleSource {
    const gating: Gating
    const clock: Clock
    const shipBuffer: int
    const fromNow: bool
    var anchor: Option<Cycle>
    var warned: seq<Cycle>

    constructor (gating: Gating, clock: Clock, shipBuffer: int, fromNow: bool)
      ensures this.gating == gating && this.clock == clock && this.shipBuffer == shipBuffer && this.fromNow == fromNow
      ensures anchor == None && warned == []
    {
      this.gating, this.clock, this.shipBuffer, this.fromNow := gating, clock, shipBuffer, fromNow;
      anchor, warned := None, [];
    }

    /** True the first time a cycle is seen, among the last `WARNED_CAP` so warned of. */
    method WarnOnce(c: Cycle) returns (first: bool)
      requires |warned| <= WARNED_CAP
      modifies `warned
      ensures first <==> c !in old(warned)
      ensures c in warned && |warned| <= WARNED_CAP
      ensures warned == if !first then old(warned)
                        else if |old(warned)| < WARNED_CAP then old(warned) + [c]
                        else old(warned)[1..] + [c]
    {
      if c in warned { return false; }
      warned := warned + [c];
      while |warned| > WARNED_CAP
        invariant |warned| > 0 && c == warned[|warned| - 1]
        invariant |warned| <= WARNED_CAP + 1
        invariant warned == (if |warned| == |old(warned)| + 1 then old(warned) + [c] else old(warned)[1..] + [c])
        invariant |warned| == |old(warned)| + 1 || (|warned| == |old(warned)| == WARNED_CAP)
      {
        warned := warned[1..];
      }
      return true;
    }

    method CycleComplete(db: Sink, c: Cycle) returns (complete: bool)
      modifies db
      ensures old(db.rows) <= db.rows && complete == Complete(db.rows, c, gating.expected)
    {
      db.Others();
      complete := Complete(db.rows, c, gating.expected);
    }

    /** The walk: each cycle's completion is a query of its own. */
    method ShippableCeiling(db: Sink, cursor: Cycle, now: int) returns (ceiling: Option<Cycle>)
      requires |warned| <= WARNED_CAP
      modifies db, `warned
      ensures old(db.rows) <= db.rows && |warned| <= WARNED_CAP
      ensures IsCeiling(old(db.rows), db.rows, cursor, clock.iso(CurrentFloor(now)), gating, clock, now, ceiling)
    {
      hide Complete, Shippable, IsCeiling, Distinct, Increasing, Matches;
      ghost var first := db.rows;
      var floor := clock.iso(CurrentFloor(now));
      var cycles := Distinct(db.rows, cursor, floor, true);
      ceiling := None;
      var i := 0;
      while i < |cycles|
        invariant 0 <= i <= |cycles| && first <= db.rows && |warned| <= WARNED_CAP
        invariant ceiling == if i == 0 then None else Some(cycles[i - 1])
        invariant forall k :: 0 <= k < i ==> Shippable(db.rows, cycles[k], gating, clock, now)
      {
        var c := cycles[i];
        ghost var before := db.rows;
        NoneExpected(db.rows, c, now);
        if gating.expected != {} {
          var complete := CycleComplete(db, c);
          Asked(db.rows, c, now);
          if !complete && clock.when(c).Some? {
            if clock.when(c).value >= now - (CYCLE_SECONDS + gating.backstop) {
              StillShippable(before, db.rows, cycles, i, now);
              WalkStops(first, db.rows, cursor, floor, cycles, i, now);
              return;
            }
            var _ := WarnOnce(c);
          }
        }
        StillShippable(before, db.rows, cycles, i, now);
        ceiling := Some(c);
        i := i + 1;
      }
      WalkEnds(first, db.rows, cursor, floor, cycles, now);
    }

    lemma NoneExpected(rows: seq<Row>, c: Cycle, now: int)
      ensures gating.expected == {} ==> Shippable(rows, c, gating, clock, now)
    {
    }

    lemma Asked(rows: seq<Row>, c: Cycle, now: int)
      ensures Shippable(rows, c, gating, clock, now) <==>
              || Complete(rows, c, gating.expected) || clock.when(c).None?
              || clock.when(c).value < now - (CYCLE_SECONDS + gating.backstop)
    {
    }

    lemma StillShippable(before: seq<Row>, rows: seq<Row>, cycles: seq<Cycle>, i: nat, now: int)
      requires before <= rows && i <= |cycles|
      requires forall k :: 0 <= k < i ==> Shippable(before, cycles[k], gating, clock, now)
      ensures forall k :: 0 <= k < i ==> Shippable(rows, cycles[k], gating, clock, now)
    {
      forall k | 0 <= k < i ensures Shippable(rows, cycles[k], gating, clock, now) {
        StaysShippable(before, rows, cycles[k], gating, clock, now);
      }
    }

    /** The walk met a cycle that may not ship yet. */
    lemma WalkStops(first: seq<Row>, last: seq<Row>, cursor: Cycle, floor: Cycle, cycles: seq<Cycle>, i: nat, now: int)
      requires cycles == Distinct(first, cursor, floor, true) && i < |cycles| && first <= last
      requires forall k :: 0 <= k < i ==> Shippable(last, cycles[k], gating, clock, now)
      requires !Shippable(last, cycles[i], gating, clock, now)
      ensures IsCeiling(first, last, cursor, floor, gating, clock, now, if i == 0 then None else Some(cycles[i - 1]))
    {
      hide Shippable, Present, Matches, Distinct;
      PresentMatches(first);
      NotYet(first, last, cycles[i], now);
      var reach := if i == 0 then cursor else cycles[i - 1];
      if i > 0 { assert cycles[i - 1] in cycles; }
      assert cycles[i] in cycles;
      assert reach < cycles[i];
      forall d | Present(first, d) && cursor < d <= reach ensures Shippable(last, d, gating, clock, now) {
        var k := Place(cycles, d);
        assert k < i;
      }
      forall d | Present(first, d) && reach < d < floor ensures Blocked(first, reach, d, gating, clock, now) {
        var k := Place(cycles, d);
        assert i <= k;
      }
    }

    lemma NotYet(first: seq<Row>, last: seq<Row>, c: Cycle, now: int)
      requires first <= last && !Shippable(last, c, gating, clock, now)
      ensures !Shippable(first, c, gating, clock, now)
    {
      if Shippable(first, c, gating, clock, now) { StaysShippable(first, last, c, gating, clock, now); }
    }

    lemma Place(cycles: seq<Cycle>, d: Cycle) returns (k: nat)
      requires d in cycles
      ensures k < |cycles| && cycles[k] == d
    {
      k :| 0 <= k < |cycles| && cycles[k] == d;
    }

    lemma WalkEnds(first: seq<Row>, last: seq<Row>, cursor: Cycle, floor: Cycle, cycles: seq<Cycle>, now: int)
      requires cycles == Distinct(first, cursor, floor, true) && first <= last
      requires forall k :: 0 <= k < |cycles| ==> Shippable(last, cycles[k], gating, clock, now)
      ensures IsCeiling(first, last, cursor, floor, gating, clock, now, if cycles == [] then None else Some(cycles[|cycles| - 1]))
    {
      hide Shippable;
      PresentMatches(first);
      forall d | Present(first, d) && cursor < d < floor
        ensures Shippable(last, d, gating, clock, now) && cycles != [] && d <= cycles[|cycles| - 1]
      {
        assert d in cycles;
        var k :| 0 <= k < |cycles| && cycles[k] == d;
        assert Shippable(last, cycles[k], gating, clock, now);
      }
      if cycles != [] { assert cycles[|cycles| - 1] in cycles; }
    }

    lemma PresentMatches(rows: seq<Row>)
      ensures forall c :: Present(rows, c) <==> Matches(rows, c, true)
    {
    }

    /** Where reading starts: the send record, or the anchor the first poll fixes. */
    method EffectiveCursor(cursor: Option<Cycle>, now: int) returns (from: Cycle)
      modifies `anchor
      ensures cursor.Some? ==> from == cursor.value && anchor == old(anchor)
      ensures cursor.None? && !fromNow ==> from == EMPTY && anchor == old(anchor)
      ensures cursor.None? && fromNow ==> anchor == Some(from)
      ensures old(anchor).Some? ==> anchor == old(anchor)
      ensures cursor.None? && fromNow && old(anchor).None? ==> from == clock.iso(CurrentFloor(now) - CYCLE_SECONDS)
    {
      if cursor.Some? { return cursor.value; }
      if !fromNow { return EMPTY; }
      if anchor.None? { anchor := Some(clock.iso(CurrentFloor(now) - CYCLE_SECONDS)); }
      return anchor.value;
    }

    /** The cycle up to which a poll reads: exclusive when nothing is expected. */
    ghost predicate Bounded(first: seq<Row>, last: seq<Row>, from: Cycle, c: Cycle, now: int) {
      if gating.expected == {} then c < clock.iso(CurrentFloor(now) - shipBuffer)
      else
        && c < clock.iso(CurrentFloor(now))
        && forall d :: Present(first, d) && from < d <= c ==> Shippable(last, d, gating, clock, now)
    }

    /** The cycles one poll may ship, oldest first: every one past the cursor that has a
        row for this server, up to the ceiling. */
    method List(db: Sink, cursor: Option<Cycle>, anchorNow: int, now: int) returns (from: Cycle, cycles: seq<Cycle>)
      requires |warned| <= WARNED_CAP
      modifies db, `anchor, `warned
      ensures old(db.rows) <= db.rows && |warned| <= WARNED_CAP
      ensures cursor.Some? ==> from == cursor.value
      ensures old(anchor).Some? ==> anchor == old(anchor)
      ensures cursor.None? && fromNow ==> anchor == Some(from)
      ensures cursor.None? && !fromNow ==> from == EMPTY
      ensures Increasing(cycles)
      ensures forall i :: 0 <= i < |cycles| ==> from < cycles[i] && Bounded(old(db.rows), db.rows, from, cycles[i], now)
      ensures forall d, i :: 0 <= i < |cycles| && from < d < cycles[i] && Matches(db.rows, d, false) ==> d in cycles
      ensures forall c :: from < c && Bounded(old(db.rows), old(db.rows), from, c, now) && Matches(old(db.rows), c, false) ==> c in cycles
    {
      hide Complete, Shippable, IsCeiling, Distinct, Increasing, Matches, Present;
      from := EffectiveCursor(cursor, anchorNow);
      var hi := clock.iso(CurrentFloor(now) - shipBuffer);
      ghost var first := db.rows;
      if gating.expected != {} {
        var ceiling := ShippableCeiling(db, from, now);
        CeilingBounds(first, db.rows, from, ceiling, now);
        CeilingReaches(first, db.rows, from, ceiling, now);
        MatchesStay(first, first);
        if ceiling.None? {
          cycles := [];
          NoCycles();
          return;
        }
        ghost var walked := db.rows;
        db.Others();
        BoundsStay(first, walked, db.rows, from, ceiling.value, now);
        hi := ceiling.value + 1;
      }
      cycles := Distinct(db.rows, from, hi, false);
      MatchesStay(first, db.rows);
      forall i | 0 <= i < |cycles| ensures from < cycles[i] && Bounded(first, db.rows, from, cycles[i], now) {
        assert cycles[i] in cycles;
      }
      forall d, i | 0 <= i < |cycles| && from < d < cycles[i] && Matches(db.rows, d, false) ensures d in cycles {
        assert cycles[i] in cycles;
      }
    }

    lemma MatchesStay(rows: seq<Row>, rows': seq<Row>)
      requires rows <= rows'
      ensures forall c :: Matches(rows, c, false) ==> Matches(rows', c, false) && Present(rows, c)
    {
      forall c | Matches(rows, c, false) ensures Matches(rows', c, false) && Present(rows, c) {
        var i :| 0 <= i < |rows| && rows[i].cycle == c && !rows[i].local;
        assert rows'[i] == rows[i];
      }
    }

    lemma NoCycles()
      ensures Increasing([])
    {
    }

    lemma CeilingBounds(first: seq<Row>, last: seq<Row>, from: Cycle, r: Option<Cycle>, now: int)
      requires gating.expected != {}
      requires IsCeiling(first, last, from, clock.iso(CurrentFloor(now)), gating, clock, now, r)
      ensures r.Some? ==> forall c :: c <= r.value ==> Bounded(first, last, from, c, now)
    {
    }

    /** Whatever could ship when the walk began lies within the ceiling. */
    lemma CeilingReaches(first: seq<Row>, last: seq<Row>, from: Cycle, r: Option<Cycle>, now: int)
      requires gating.expected != {}
      requires IsCeiling(first, last, from, clock.iso(CurrentFloor(now)), gating, clock, now, r)
      ensures forall c :: from < c && Bounded(first, first, from, c, now) && Present(first, c) ==> r.Some? && c <= r.value
    {
      var reach := if r.Some? then r.value else from;
      forall c | from < c && Bounded(first, first, from, c, now) && Present(first, c) ensures r.Some? && c <= r.value {
        NotBlocked(first, reach, c, gating, clock, now);
      }
    }

    lemma BoundsStay(first: seq<Row>, last: seq<Row>, last': seq<Row>, from: Cycle, top: Cycle, now: int)
      requires gating.expected != {} && last <= last'
      requires forall c :: c <= top ==> Bounded(first, last, from, c, now)
      ensures forall c :: c <= top ==> Bounded(first, last', from, c, now)
    {
      forall c | c <= top ensures Bounded(first, last', from, c, now) {
        assert Bounded(first, last, from, c, now);
        forall d | Present(first, d) && from < d <= c ensures Shippable(last', d, gating, clock, now) {
          StaysShippable(last, last', d, gating, clock, now);
        }
      }
    }

    /** Every row of the cycle this server may send, in queue order; none when none parses. */
    method BuildBatch(db: Sink, c: Cycle) returns (batch: Option<Batch>)
      modifies db
      ensures old(db.rows) <= db.rows
      ensures batch.Some? <==> Shows(db.rows, c)
      ensures batch.Some? ==> batch.value == Batch(RecordsOf(db.rows, c), c)
    {
      db.Others();
      var rows, records, i := db.rows, [], 0;
      while i < |rows|
        invariant 0 <= i <= |rows| && rows == db.rows && old(db.rows) <= rows
        invariant records == RecordsOf(rows[..i], c)
      {
        hide RecordsOf, Carried;
        OneMore(rows, i, c);
        if Carried(rows[i], c) { records := records + [rows[i]]; }
        i := i + 1;
      }
      assert rows[..i] == rows;
      batch := if records == [] then None else Some(Batch(records, c));
    }
  }

  // ---- whole runs --------------------------------------------------------------------------

  /** A delivered cycle: where the cursor stood, the sink when its poll began, when the
      cycles were listed, and when the batch was built; and the poll's clock. */
  datatype Delivered = Delivered(cycle: Cycle, after: Cycle, first: seq<Row>, seen: seq<Row>, built: seq<Row>, now: int,
                                 records: seq<Row>)

  /** What holds of one delivered cycle. Its rows are exactly those built; it ended and
      was complete, too old to wait for, or not there when the walk began; and no cycle
      that had something to send when the poll listed its cycles was jumped. */
  ghost predicate Sound(source: WsprCycleSource, e: Delivered) {
    && e.first <= e.seen <= e.built && e.after < e.cycle
    && Shows(e.built, e.cycle) && e.records == RecordsOf(e.built, e.cycle)
    && source.Bounded(e.first, e.seen, e.after, e.cycle, e.now)
    && (forall d :: e.after < d < e.cycle ==> !Shows(e.seen, d))
  }

  /** Each delivery is sound, starts where the one before it ended, and the last is the send record. */
  ghost predicate Kept(source: WsprCycleSource, log: seq<Delivered>, cursor: Option<Cycle>) {
    && (forall i :: 0 <= i < |log| ==> Sound(source, log[i]))
    && (forall i :: 0 < i < |log| ==> log[i].after == log[i - 1].cycle)
    && (log != [] ==> cursor == Some(log[|log| - 1].cycle))
  }

  /** What a poll has done after its first `i` cycles. */
  ghost predicate Polled(seen: seq<Row>, rows: seq<Row>, cycles: seq<Cycle>, i: nat, from: Cycle, at: Cycle) {
    && i <= |cycles| && seen <= rows && from <= at && (i < |cycles| ==> at < cycles[i])
    && (forall k :: 0 <= k < i && at < cycles[k] ==> !Shows(seen, cycles[k]))
  }

  /** One pipeline over this source: the uploader's passes, whatever the gate and the
      transport answer and whatever rows arrive. */
  class CyclePipeline {
    const source: WsprCycleSource
    const db: Sink
    var cursor: Option<Cycle>
    ghost var log: seq<Delivered>

    ghost predicate Valid()
      reads this, source
    {
      |source.warned| <= WARNED_CAP && Kept(source, log, cursor)
    }

    constructor (source: WsprCycleSource, db: Sink, cursor: Option<Cycle>)
      requires |source.warned| <= WARNED_CAP
      ensures Valid() && log == [] && this.cursor == cursor && this.source == source && this.db == db
    {
      this.source, this.db, this.cursor, log := source, db, cursor, [];
    }

    /** One poll. A batch is delivered now, or later by a retry with nothing read in
        between (then the cursor moves as here); a hold or a failure ends the poll. */
    method Poll(anchorNow: int, now: int) returns (from: Cycle, complete: bool)
      requires Valid()
      modifies this, source, db
      ensures Valid() && old(log) <= log
      ensures log == old(log) ==> cursor == old(cursor)
      ensures old(cursor).Some? ==> from == old(cursor).value
      ensures complete ==> forall c :: from < c && source.Bounded(old(db.rows), old(db.rows), from, c, now) && Shows(old(db.rows), c) ==>
                Went(log, |old(log)|, c)
    {
      hide Kept, Sound, Shows, Increasing, Matches, Polled, Present, RecordsOf, Went;
      StartsAt(source, log, cursor);
      ghost var first := db.rows;
      var cycles;
      complete := false;
      from, cycles := source.List(db, cursor, anchorNow, now);
      ghost var seen, at := db.rows, from;
      PollStarts(seen, cycles, from);
      var i := 0;
      while i < |cycles|
        invariant 0 <= i <= |cycles| && first <= seen && old(log) <= log && |source.warned| <= WARNED_CAP
        invariant Kept(source, log, cursor) && Polled(seen, db.rows, cycles, i, from, at)
        invariant log != [] ==> at == log[|log| - 1].cycle
        invariant log == old(log) ==> cursor == old(cursor)
        invariant forall k :: 0 <= k < i && Shows(seen, cycles[k]) ==> Went(log, |old(log)|, cycles[k])
      {
        ghost var before := db.rows;
        var batch := source.BuildBatch(db, cycles[i]);
        PollGoesOn(seen, before, db.rows, cycles, i, from, at, batch.Some?);
        if batch.Some? {
          var sent: bool := *;
          if !sent { return; }
          ghost var e := Delivered(cycles[i], at, first, seen, db.rows, now, batch.value.records);
          DeliversSound(source, before, cycles, i, from, e);
          KeptMore(source, log, cursor, e);
          WentMore(log, |old(log)|, e);
          log := log + [e];
          cursor, at := Some(cycles[i]), cycles[i];
          var enough: bool := *;
          if enough { return; }
        }
        i := i + 1;
      }
      complete := true;
      AllWent(source, first, seen, from, cycles, now, log, |old(log)|);
    }
  }

  /** Delivered by the entries from `n` on. */
  ghost predicate Went(log: seq<Delivered>, n: nat, c: Cycle) {
    exists j :: n <= j < |log| && log[j].cycle == c
  }

  lemma WentMore(log: seq<Delivered>, n: nat, e: Delivered)
    requires n <= |log|
    ensures Went(log + [e], n, e.cycle) && forall c :: Went(log, n, c) ==> Went(log + [e], n, c)
  {
    assert (log + [e])[|log|] == e;
    forall c | Went(log, n, c) ensures Went(log + [e], n, c) {
      var j :| n <= j < |log| && log[j].cycle == c;
      assert (log + [e])[j] == log[j];
    }
  }

  /** A poll that ran to its end left nothing behind that could go. */
  lemma AllWent(source: WsprCycleSource, first: seq<Row>, seen: seq<Row>, from: Cycle, cycles: seq<Cycle>, now: int,
                log: seq<Delivered>, n: nat)
    requires first <= seen
    requires forall c :: from < c && source.Bounded(first, first, from, c, now) && Matches(first, c, false) ==> c in cycles
    requires forall k :: 0 <= k < |cycles| && Shows(seen, cycles[k]) ==> Went(log, n, cycles[k])
    ensures forall c :: from < c && source.Bounded(first, first, from, c, now) && Shows(first, c) ==> Went(log, n, c)
  {
    forall c | from < c && source.Bounded(first, first, from, c, now) && Shows(first, c) ensures Went(log, n, c) {
      ShownMatches(first, c);
      StaysShown(first, seen, c);
      var k :| 0 <= k < |cycles| && cycles[k] == c;
      assert Shows(seen, cycles[k]);
    }
  }

  lemma StartsAt(source: WsprCycleSource, log: seq<Delivered>, cursor: Option<Cycle>)
    requires Kept(source, log, cursor)
    ensures log != [] ==> cursor == Some(log[|log| - 1].cycle)
  {
  }

  lemma KeptMore(source: WsprCycleSource, log: seq<Delivered>, cursor: Option<Cycle>, e: Delivered)
    requires Kept(source, log, cursor) && Sound(source, e) && (log != [] ==> e.after == log[|log| - 1].cycle)
    ensures Kept(source, log + [e], Some(e.cycle))
  {
    hide Sound;
  }

  lemma PollStarts(seen: seq<Row>, cycles: seq<Cycle>, from: Cycle)
    requires forall i :: 0 <= i < |cycles| ==> from < cycles[i]
    ensures Polled(seen, seen, cycles, 0, from, from)
  {
  }

  /** A cycle whose batch came back empty had nothing to send when it was listed. */
  lemma PollGoesOn(seen: seq<Row>, before: seq<Row>, rows: seq<Row>, cycles: seq<Cycle>, i: nat, from: Cycle, at: Cycle, built: bool)
    requires Polled(seen, before, cycles, i, from, at) && before <= rows && i < |cycles| && Increasing(cycles)
    requires built <==> Shows(rows, cycles[i])
    ensures Polled(seen, rows, cycles, i + 1, from, if built then cycles[i] else at) && (Shows(seen, cycles[i]) ==> built)
  {
    assert seen <= rows;
    NotBuilt(seen, rows, cycles[i]);
    var at' := if built then cycles[i] else at;
    forall k | 0 <= k < i + 1 && at' < cycles[k] ensures !Shows(seen, cycles[k]) {
      if k == i { assert !built; }
    }
  }

  lemma DeliversSound(source: WsprCycleSource, before: seq<Row>, cycles: seq<Cycle>, i: nat, from: Cycle, e: Delivered)
    requires i < |cycles| && Polled(e.seen, before, cycles, i, from, e.after) && Increasing(cycles) && e.cycle == cycles[i]
    requires e.first <= e.seen <= e.built && Shows(e.built, e.cycle) && e.records == RecordsOf(e.built, e.cycle)
    requires source.Bounded(e.first, e.seen, from, e.cycle, e.now)
    requires forall d, j :: 0 <= j < |cycles| && from < d < cycles[j] && Matches(e.seen, d, false) ==> d in cycles
    ensures Sound(source, e)
  {
    NothingJumped(e.seen, from, e.after, cycles, i);
    BoundedLater(source, e.first, e.seen, from, e.after, e.cycle, e.now);
  }

  lemma NotBuilt(seen: seq<Row>, built: seq<Row>, c: Cycle)
    requires seen <= built
    ensures Shows(seen, c) ==> Shows(built, c)
  {
    if Shows(seen, c) { StaysShown(seen, built, c); }
  }

  lemma ShownMatches(rows: seq<Row>, c: Cycle)
    ensures Shows(rows, c) ==> Matches(rows, c, false)
  {
    if Shows(rows, c) {
      var r :| 0 <= r < |rows| && Carried(rows[r], c);
      assert rows[r].cycle == c;
    }
  }

  lemma NothingJumped(seen: seq<Row>, from: Cycle, at: Cycle, cycles: seq<Cycle>, i: nat)
    requires i < |cycles| && Increasing(cycles) && from <= at
    requires forall d, j :: 0 <= j < |cycles| && from < d < cycles[j] && Matches(seen, d, false) ==> d in cycles
    requires forall k :: 0 <= k < i && at < cycles[k] ==> !Shows(seen, cycles[k])
    ensures forall d :: at < d < cycles[i] ==> !Shows(seen, d)
  {
    forall d | at < d < cycles[i] ensures !Shows(seen, d) {
      ShownMatches(seen, d);
      if Matches(seen, d, false) {
        var k :| 0 <= k < |cycles| && cycles[k] == d;
        assert k < i;
      }
    }
  }

  lemma BoundedLater(source: WsprCycleSource, first: seq<Row>, last: seq<Row>, from: Cycle, at: Cycle, c: Cycle, now: int)
    requires source.Bounded(first, last, from, c, now) && from <= at
    ensures source.Bounded(first, last, at, c, now)
  {
  }

  /** Over any number of polls the delivered cycles strictly increase, so none goes out twice. */
  lemma {:induction false} CyclesIncrease(log: seq<Delivered>, i: nat, j: nat)
    requires forall k :: 0 <= k < |log| ==> log[k].after < log[k].cycle
    requires forall k :: 0 < k < |log| ==> log[k].after == log[k - 1].cycle
    requires i < j < |log|
    ensures log[i].cycle < log[j].cycle
    decreases j - i
  {
    if i + 1 < j { CyclesIncrease(log, i, j - 1); }
  }
}
