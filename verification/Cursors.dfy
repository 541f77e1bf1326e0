/** Send-record cursors, the sources' cursor orders, and the forward-only
    write of one send record (`advance_cursor`, `start_cursor`). */
module Cursors {
  datatype Option<+T> = None | Some(value: T)

  /** The bytes of a cursor, by what Python's decoders read from them. */
  datatype Cursor =
    | Blank                               // b""
    | Digits(n: int, text: string)        // int(text) reads n
    | Seconds(ns: int, text: string)      // int(text) fails; float(text) * 1e9 floors to ns
    | Words(text: string)                 // ASCII, but no number
    | NotAscii(tag: int)
    | HandEdited(tag: int)                // a cell SQLite does not hand back as bytes

  /** The order a source lends to the store. */
  datatype Order =
    | ById        // SqliteSource
    | ByTime      // WsprCycleSource
    | ByMtime     // FileTreeSource, KEEP
    | Always      // FileTreeSource, delete_on_ack; a source without an order
    | Broken      // a comparator that raises

  /** Lexicographic order on strings, as Python compares str. */
  predicate Less(a: string, b: string) {
    b != [] && (a == [] || a[0] < b[0] || (a[0] == b[0] && Less(a[1..], b[1..])))
  }

  lemma {:induction false} LessIsStrictTotal(a: string, b: string)
    ensures !(Less(a, b) && Less(b, a))
    ensures Less(a, b) || Less(b, a) || a == b
    ensures !Less(a, a)
  {
    if a != [] {
      LessIsStrictTotal(a[1..], if b == [] then [] else b[1..]);
      if b != [] && a[0] == b[0] {
        assert a == [a[0]] + a[1..] && b == [b[0]] + b[1..];
      }
    }
  }

  lemma {:induction false} LessIsTransitive(a: string, b: string, c: string)
    requires Less(a, b) && Less(b, c)
    ensures Less(a, c)
  {
    if a != [] && a[0] == b[0] && b[0] == c[0] {
      LessIsTransitive(a[1..], b[1..], c[1..]);
    }
  }

  function AsText(c: Cursor): string
    requires !c.NotAscii? && !c.HandEdited?
  {
    if c.Blank? then "" else c.text
  }

  /** The integer `_Cursor.from_bytes` (ById) or `_decode_keep_cursor` (ByMtime) reads. */
  function AsInt(c: Cursor): int {
    match c
    case Digits(n, _) => n
    case Seconds(ns, _) => ns
    case _ => 0
  }

  /** `is_after(new, stored)`; `None` when the comparator raises. */
  function IsAfter(order: Order, new_: Cursor, stored: Cursor): Option<bool> {
    match order
    case Broken => None
    case Always => Some(true)
    case ById =>
      if stored.Blank? || !(new_.Blank? || new_.Digits?) || !stored.Digits? then Some(true)
      else Some(AsInt(new_) > AsInt(stored))
    case ByTime =>
      if stored.Blank? || new_.NotAscii? || new_.HandEdited? || stored.NotAscii? || stored.HandEdited? then Some(true)
      else Some(Less(AsText(stored), AsText(new_)))
    case ByMtime =>
      if !(new_.Digits? || new_.Seconds?) || !(stored.Digits? || stored.Seconds?) then Some(true)
      else Some(AsInt(new_) > AsInt(stored))
  }

  predicate After(order: Order, new_: Cursor, stored: Cursor) {
    IsAfter(order, new_, stored) == Some(true)
  }

  predicate Tied(order: Order, a: Cursor, b: Cursor) {
    !After(order, a, b) && !After(order, b, a)
  }

  /** The values a source's order really orders. */
  predicate Orderable(order: Order, c: Cursor) {
    match order
    case ById => c.Digits?
    case ByTime => c.Digits? || c.Seconds? || c.Words?
    case ByMtime => c.Digits? || c.Seconds?
    case _ => false
  }

  /** Each source's order is a strict weak order on the values it can decode. */
  lemma StrictWeakOrder(order: Order, a: Cursor, b: Cursor, c: Cursor)
    requires Orderable(order, a) && Orderable(order, b) && Orderable(order, c)
    ensures !After(order, a, a)
    ensures After(order, a, b) ==> !After(order, b, a)
    ensures After(order, a, b) && After(order, b, c) ==> After(order, a, c)
    ensures Tied(order, a, b) && Tied(order, b, c) ==> Tied(order, a, c)
  {
    if order.ByTime? {
      LessIsStrictTotal(a.text, b.text);
      LessIsStrictTotal(b.text, c.text);
      LessIsStrictTotal(a.text, c.text);
      if Less(b.text, a.text) && Less(c.text, b.text) {
        LessIsTransitive(c.text, b.text, a.text);
      }
    }
  }

  /** ... and on no other value: a cursor lies after itself exactly when the
      source cannot decode it (or orders nothing at all). */
  lemma AfterItselfIffNotOrderable(order: Order, c: Cursor)
    requires order != Broken
    ensures After(order, c, c) <==> !Orderable(order, c)
  {
    if order.ByTime? && Orderable(order, c) {
      LessIsStrictTotal(c.text, c.text);
    }
  }

  // ---- one send record ------------------------------------------------------

  datatype Record = Record(cursor: Cursor, lastAck: int)

  datatype Advance = WRITTEN | REFRESHED | REFUSED | WRITTEN_UNCHECKED

  /** What `_advance_in_txn` decides from the stored cursor and the new one. */
  function Verdict(order: Order, new_: Cursor, stored: Cursor): Advance {
    if stored.HandEdited? then WRITTEN_UNCHECKED
    else if IsAfter(order, new_, stored).None? then WRITTEN_UNCHECKED
    else if After(order, new_, stored) then WRITTEN
    else if new_ != stored && IsAfter(order, stored, new_).None? then WRITTEN_UNCHECKED
    else if new_ != stored && After(order, stored, new_) then REFUSED
    else REFRESHED
  }

  /** The record, and the answer, after one `advance_cursor`. */
  function Advanced(order: Order, old_: Option<Record>, cursor: Cursor, ack: int): (Option<Record>, Advance) {
    if old_.None? then (Some(Record(cursor, ack)), WRITTEN)
    else
      var verdict := Verdict(order, cursor, old_.value.cursor);
      (match verdict
       case WRITTEN => Some(Record(cursor, ack))
       case WRITTEN_UNCHECKED => Some(Record(cursor, ack))
       case REFUSED => old_
       case REFRESHED => Some(old_.value.(lastAck := ack)),
       verdict)
  }

  /** One writer's call on the key; any number of writers interleave. */
  datatype Write = Offer(cursor: Cursor, ack: int) | Start(cursor: Cursor, ack: int)

  function Apply(order: Order, rec: Option<Record>, w: Write): Option<Record> {
    match w
    case Offer(c, ack) => Advanced(order, rec, c, ack).0
    case Start(c, ack) => if rec.None? then Some(Record(c, ack)) else rec
  }

  function ApplyAll(order: Order, rec: Option<Record>, ws: seq<Write>): Option<Record> {
    if ws == [] then rec else Apply(order, ApplyAll(order, rec, ws[..|ws| - 1]), ws[|ws| - 1])
  }

  /** The record the key began from: the stored one, or what the first call wrote. */
  function Began(rec: Option<Record>, ws: seq<Write>): Option<Cursor> {
    if rec.Some? then Some(rec.value.cursor)
    else if ws == [] then None
    else Some(ws[0].cursor)
  }

  /** `c` reaches every cursor `advance_cursor` was offered, and `began`. */
  ghost predicate ReachesAll(order: Order, c: Cursor, began: Cursor, ws: seq<Write>) {
    && !After(order, began, c)
    && forall i :: 0 <= i < |ws| && ws[i].Offer? ==> !After(order, ws[i].cursor, c)
  }

  /** `c` is one of those values (as bytes, so it also ties with the greatest). */
  predicate IsOneOf(c: Cursor, began: Cursor, ws: seq<Write>) {
    c == began || exists i :: 0 <= i < |ws| && ws[i].Offer? && ws[i].cursor == c
  }

  lemma {:induction false} NeverBack(order: Order, a: Cursor, b: Cursor, c: Cursor)
    requires Orderable(order, a) && Orderable(order, b) && Orderable(order, c)
    requires !After(order, a, b) && !After(order, b, c)
    ensures !After(order, a, c)
  {
    StrictWeakOrder(order, a, b, c);
    StrictWeakOrder(order, a, c, b);
    StrictWeakOrder(order, b, a, c);
  }

  /** Any interleaving of `advance_cursor` and `start_cursor`, by any number of
      writers, on orderable values: the record never moves back and ends at the
      greatest value it began from or was offered. */
  lemma {:induction false} EndsAtTheMaximum(order: Order, rec: Option<Record>, ws: seq<Write>)
    requires rec.Some? ==> Orderable(order, rec.value.cursor)
    requires forall i :: 0 <= i < |ws| ==> Orderable(order, ws[i].cursor)
    requires Began(rec, ws).Some?
    ensures ApplyAll(order, rec, ws).Some?
    ensures Orderable(order, ApplyAll(order, rec, ws).value.cursor)
    ensures ReachesAll(order, ApplyAll(order, rec, ws).value.cursor, Began(rec, ws).value, ws)
    ensures IsOneOf(ApplyAll(order, rec, ws).value.cursor, Began(rec, ws).value, ws)
  {
    if ws == [] {
      AfterItselfIffNotOrderable(order, rec.value.cursor);
    } else {
      var front, w := ws[..|ws| - 1], ws[|ws| - 1];
      if Began(rec, front).None? {
        AfterItselfIffNotOrderable(order, w.cursor);
      } else {
        EndsAtTheMaximum(order, rec, front);
        var mid := ApplyAll(order, rec, front).value.cursor;
        var end := ApplyAll(order, rec, ws).value.cursor;
        var began := Began(rec, ws).value;
        StepNeverBack(order, ApplyAll(order, rec, front).value, w);
        NeverBack(order, began, mid, end);
        forall i | 0 <= i < |ws| && ws[i].Offer? ensures !After(order, ws[i].cursor, end) {
          if i < |front| {
            assert front[i] == ws[i];
            NeverBack(order, ws[i].cursor, mid, end);
          }
        }
        if end == mid && mid != began {
          var i :| 0 <= i < |front| && front[i].Offer? && front[i].cursor == mid;
          assert ws[i].cursor == end;
        }
      }
    }
  }

  /** One call: the record does not move back, the offered value is reached,
      REFUSED changes nothing and REFRESHED only `last_ack`. */
  lemma StepNeverBack(order: Order, rec: Record, w: Write)
    requires Orderable(order, rec.cursor) && Orderable(order, w.cursor)
    ensures Apply(order, Some(rec), w).Some?
    ensures !After(order, rec.cursor, Apply(order, Some(rec), w).value.cursor)
    ensures w.Offer? ==> !After(order, w.cursor, Apply(order, Some(rec), w).value.cursor)
    ensures Apply(order, Some(rec), w).value.cursor in {rec.cursor, w.cursor}
    ensures w.Start? ==> Apply(order, Some(rec), w).value == rec
    ensures var v := Verdict(order, w.cursor, rec.cursor);
      w.Offer? ==>
        && v != WRITTEN_UNCHECKED
        && (v == REFUSED <==> After(order, rec.cursor, w.cursor))
        && (v == REFUSED ==> Apply(order, Some(rec), w).value == rec)
        && (v == REFRESHED <==> Tied(order, rec.cursor, w.cursor))
        && (v == REFRESHED ==> Apply(order, Some(rec), w).value == rec.(lastAck := w.ack))
  {
    StrictWeakOrder(order, rec.cursor, w.cursor, rec.cursor);
    StrictWeakOrder(order, w.cursor, rec.cursor, w.cursor);
  }

  /** Outside that domain the promise fails: a negative id moves a blank record
      (read as 0) back, and an undecodable offer overwrites any record. */
  lemma UndecodableOfferMovesTheRecordBack()
    ensures Advanced(ById, Some(Record(Digits(7, "7"), 1)), Words("x"), 2).0 == Some(Record(Words("x"), 2))
    ensures Advanced(ById, Some(Record(Words("x"), 2)), Digits(3, "3"), 3).0 == Some(Record(Digits(3, "3"), 3))
  {
  }
}
