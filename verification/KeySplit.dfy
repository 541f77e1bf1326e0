/** The split of the shared `psk.spots` source into one source per producer
    (scripts/prove_key_split.py): what the script checks on one copy of a sink,
    for every sink. */
module KeySplit {
  import opened Cursors
  import opened Sink
  import opened Selection

  const MODES_PSK: seq<Json> := [Text("ft8"), Text("ft4")]
  const MODES_METEOR: seq<Json> := [Text("msk144")]
  const MODES_OLD: seq<Json> := [Text("ft8"), Text("ft4"), Text("msk144")]

  const HEARD := Clause("tx_call", Ne, [Text("")])
  const NOT_FORWARDED := Clause("forward_to_pskreporter", Eq, [Num(0)])

  function Extras(modes: Option<seq<Json>>): seq<Clause> {
    if modes.None? then [HEARD, NOT_FORWARDED]
    else [HEARD, Clause("mode", In, modes.value), NOT_FORWARDED]
  }

  function OldSource(withMode: bool): Source {
    Source("psk", "spots", None, None, [2], Extras(if withMode then Some(MODES_OLD) else None))
  }

  function NewSource(producer: string, modes: seq<Json>, withMode: bool): Source {
    Source("psk", "spots", Some(producer), None, [2], Extras(if withMode then Some(modes) else None))
  }

  function OldReader(withMode: bool, cols: Columns): Reader {
    Reader(OldSource(withMode), cols)
  }

  function PskReader(withMode: bool, cols: Columns): Reader {
    Reader(NewSource(PSK, MODES_PSK, withMode), cols)
  }

  function MeteorReader(withMode: bool, cols: Columns): Reader {
    Reader(NewSource(METEOR, MODES_METEOR, withMode), cols)
  }

  /** The ids the script drains from one source. */
  function Drained(rd: Reader, table: seq<Row>): set<int> {
    Ids(Records(Past(rd, table, 0)))
  }

  /** The script's verdict: no overlap, nothing missing, nothing extra. */
  predicate Check(old_: set<int>, a: set<int>, b: set<int>) {
    a * b == {} && old_ - (a + b) == {} && (a + b) - old_ == {}
  }

  /** What the script compares on one sink. */
  predicate Proved(withMode: bool, cols: Columns, table: seq<Row>) {
    Check(Drained(OldReader(withMode, cols), table), Drained(PskReader(withMode, cols), table),
          Drained(MeteorReader(withMode, cols), table))
  }

  /** The row's producer is one the split serves. */
  predicate KnownProducer(cols: Columns, row: Row) {
    cols.hasProducer ==> row.producer in {"", PSK, METEOR}
  }

  /** The row's producer, when it names one, decodes the row's mode. */
  predicate ModeFitsProducer(cols: Columns, row: Row) {
    cols.hasProducer && row.producer != "" ==>
      row.producer == (if Field(row, "mode") == Text(MSK144) then METEOR else PSK)
  }

  predicate Fits(withMode: bool, cols: Columns, row: Row) {
    if withMode then ModeFitsProducer(cols, row) else KnownProducer(cols, row)
  }

  /** One row: the two new sources share it out exactly when it fits. */
  lemma ScopesShareOutRow(cols: Columns, row: Row)
    ensures !(Selected(PskReader(false, cols), row) && Selected(MeteorReader(false, cols), row))
    ensures Selected(PskReader(false, cols), row) || Selected(MeteorReader(false, cols), row) <==>
            Selected(OldReader(false, cols), row) && KnownProducer(cols, row)
  {
  }

  lemma ExactMode(mode: string, row: Row)
    requires Field(row, "mode") == Text(mode) && mode in {"ft8", "ft4", "msk144"}
    ensures SqlIsMsk144(row) <==> mode == MSK144
  {
    TrimNothing(mode, SQL_SPACE);
    if mode == MSK144 {
      assert Lower(mode) == mode;
    } else {
      assert |Lower(mode)| == 3;
    }
  }

  predicate ModeIn(modes: seq<Json>, row: Row) {
    Holds(Clause("mode", In, modes), row)
  }

  lemma WithMode(producer: Option<string>, modes: seq<Json>, cols: Columns, row: Row)
    ensures Selected(Reader(Source("psk", "spots", producer, None, [2], Extras(Some(modes))), cols), row) <==>
            Selected(Reader(Source("psk", "spots", producer, None, [2], Extras(None)), cols), row) && ModeIn(modes, row)
  {
    var with := Extras(Some(modes));
    var without := Extras(None);
    assert with == [without[0], Clause("mode", In, modes), without[1]];
    assert (forall i :: 0 <= i < |with| ==> Holds(with[i], row)) <==>
           Holds(with[0], row) && Holds(with[1], row) && Holds(with[2], row);
    assert (forall i :: 0 <= i < |without| ==> Holds(without[i], row)) <==>
           Holds(without[0], row) && Holds(without[1], row);
  }

  lemma ModesIn(row: Row)
    ensures ModeIn(MODES_PSK, row) <==> Field(row, "mode") in {Text("ft8"), Text("ft4")}
    ensures ModeIn(MODES_METEOR, row) <==> Field(row, "mode") == Text("msk144")
    ensures ModeIn(MODES_OLD, row) <==> Field(row, "mode") in {Text("ft8"), Text("ft4"), Text("msk144")}
  {
    var a := Extract(Field(row, "mode"));
    assert MODES_PSK[0] == Text("ft8") && MODES_PSK[1] == Text("ft4");
    assert MODES_METEOR[0] == Text("msk144");
    assert MODES_OLD[0] == Text("ft8") && MODES_OLD[1] == Text("ft4") && MODES_OLD[2] == Text("msk144");
    forall body: string ensures ['['] + body !in {"ft8", "ft4", "msk144"} && ['{'] + body !in {"ft8", "ft4", "msk144"} {
      assert (['['] + body)[0] == '[' && (['{'] + body)[0] == '{';
    }
    if Field(row, "mode") == Text("ft8") { assert Compare(Eq, a, Extract(MODES_PSK[0])) && Compare(Eq, a, Extract(MODES_OLD[0])); }
    if Field(row, "mode") == Text("ft4") { assert Compare(Eq, a, Extract(MODES_PSK[1])) && Compare(Eq, a, Extract(MODES_OLD[1])); }
    if Field(row, "mode") == Text("msk144") { assert Compare(Eq, a, Extract(MODES_METEOR[0])) && Compare(Eq, a, Extract(MODES_OLD[2])); }
  }

  /** The same with the mode clauses the rendered pipelines carry. */
  lemma RenderedSourcesShareOutRow(cols: Columns, row: Row)
    ensures !(Selected(PskReader(true, cols), row) && Selected(MeteorReader(true, cols), row))
    ensures Selected(PskReader(true, cols), row) || Selected(MeteorReader(true, cols), row) <==>
            Selected(OldReader(true, cols), row) && ModeFitsProducer(cols, row)
  {
    WithMode(None, MODES_OLD, cols, row);
    WithMode(Some(PSK), MODES_PSK, cols, row);
    WithMode(Some(METEOR), MODES_METEOR, cols, row);
    ModesIn(row);
    ScopesShareOutRow(cols, row);
    hide ModeIn, SqlIsMsk144, Holds, Extract;
    if Field(row, "mode") in {Text("ft8"), Text("ft4"), Text("msk144")} {
      ExactMode(Field(row, "mode").s, row);
    }
  }

  lemma ShareOutRow(withMode: bool, cols: Columns, row: Row)
    ensures !(Selected(PskReader(withMode, cols), row) && Selected(MeteorReader(withMode, cols), row))
    ensures Selected(PskReader(withMode, cols), row) || Selected(MeteorReader(withMode, cols), row) <==>
            Selected(OldReader(withMode, cols), row) && Fits(withMode, cols, row)
  {
    if withMode { RenderedSourcesShareOutRow(cols, row); } else { ScopesShareOutRow(cols, row); }
  }

  lemma DrainedMember(rd: Reader, table: seq<Row>, row: Row)
    requires Sorted(table) && row in table
    ensures row.id in Drained(rd, table) <==> Selected(rd, row) && 0 < row.id && row.parseable
  {
    var shipped := Records(Past(rd, table, 0));
    forall r ensures r in shipped <==> r in table && Selected(rd, r) && 0 < r.id && r.parseable {
      RecordsMember(Past(rd, table, 0), r);
      PastMember(rd, table, 0, r);
    }
  }

  lemma DrainedIsFromTable(rd: Reader, table: seq<Row>, id: int) returns (row: Row)
    requires id in Drained(rd, table)
    ensures row in table && row.id == id
  {
    row :| row in Records(Past(rd, table, 0)) && row.id == id;
    RecordsMember(Past(rd, table, 0), row);
    PastMember(rd, table, 0, row);
  }

  /** The split theorem. For every sink, the two producer drains are disjoint,
      and together they equal the shared drain exactly when every row the shared
      source ships fits: its producer is known (scope alone), or matches its mode
      (as rendered). */
  lemma SplitIff(withMode: bool, cols: Columns, table: seq<Row>)
    requires Sorted(table)
    ensures Drained(PskReader(withMode, cols), table) * Drained(MeteorReader(withMode, cols), table) == {}
    ensures Proved(withMode, cols, table) <==>
            forall row :: row in table && 0 < row.id && row.parseable && Selected(OldReader(withMode, cols), row)
                          ==> Fits(withMode, cols, row)
  {
    var o, a, b := Drained(OldReader(withMode, cols), table), Drained(PskReader(withMode, cols), table),
                   Drained(MeteorReader(withMode, cols), table);
    forall row | row in table
      ensures !(row.id in a && row.id in b)
      ensures row.id in a + b <==> row.id in o && Fits(withMode, cols, row)
      ensures row.id in o <==> Selected(OldReader(withMode, cols), row) && 0 < row.id && row.parseable
    {
      ShareOutRow(withMode, cols, row);
      DrainedMember(OldReader(withMode, cols), table, row);
      DrainedMember(PskReader(withMode, cols), table, row);
      DrainedMember(MeteorReader(withMode, cols), table, row);
    }
    forall id | id in o || id in a || id in b
      ensures id !in a || id !in b
      ensures exists row :: row in table && row.id == id
    {
      var row := DrainedIsFromTable(if id in o then OldReader(withMode, cols)
                                    else if id in a then PskReader(withMode, cols)
                                    else MeteorReader(withMode, cols), table, id);
    }
    var overlap, missing, extra := a * b, o - (a + b), (a + b) - o;
    assert overlap == {} && extra == {};
    if missing != {} {
      var id :| id in missing;
    }
  }
}
