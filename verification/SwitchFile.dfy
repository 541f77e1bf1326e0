/** The switch file writer (sinkswitch.py): the printing loop, what a TOML reader
    makes of its text, which trees it takes (cli.py), and the state two files give. */
module SwitchFile {
  import opened Cursors
  import T = Toml
  import opened TomlText
  import opened SwitchTree
  import opened SwitchText

  // ---- keys a newline ends --------------------------------------------------------

  /** No key anywhere in the tree is let through with a newline at its end. */
  predicate GoodTree(entries: seq<Entry>)
    decreases entries
  {
    forall i :: 0 <= i < |entries| ==> !EndsInNewline(entries[i].key) && GoodValue(entries[i].value)
  }

  predicate GoodValue(v: Value)
    decreases v
  {
    match v
    case Table(entries) => GoodTree(entries)
    case List(items) => forall i :: 0 <= i < |items| ==> GoodValue(items[i])
    case _ => true
  }

  predicate Named(path: seq<string>) {
    forall i :: 0 <= i < |path| ==> path[i] != ""
  }

  ghost predicate AllKeyed(ss: seq<T.Stmt>) {
    forall i :: 0 <= i < |ss| ==> KeyedStmt(ss[i])
  }

  lemma KeyedJoin(a: seq<T.Stmt>, b: seq<T.Stmt>)
    ensures AllKeyed(a + b) <==> AllKeyed(a) && AllKeyed(b)
    ensures AllGood(a + b) <==> AllGood(a) && AllGood(b)
  {
    hide KeyedStmt, GoodStmt;
    var ab := a + b;
    assert forall i :: 0 <= i < |a| ==> ab[i] == a[i];
    assert forall i :: 0 <= i < |b| ==> ab[|a| + i] == b[i];
  }

  lemma {:induction false} ScalarsGood(es: seq<Entry>)
    requires Fits(es)
    ensures AllKeyed(Scalars(es))
    ensures AllGood(Scalars(es)) <==>
            forall i :: 0 <= i < |es| && !IsSub(es[i].value) ==> !EndsInNewline(es[i].key)
  {
    if es != [] {
      var front, e := es[..|es| - 1], es[|es| - 1];
      FitsFront(es);
      ScalarsGood(front);
      hide Fits, EndsInNewline, KeyedStmt, AllGood, AllKeyed;
      LastOff(es);
      var last := if IsSub(e.value) then [] else [T.KeyValue(e.key, ScalarOf(e.value))];
      KeyedJoin(Scalars(front), last);
      if !IsSub(e.value) {
        OneKeyValue(e.key, ScalarOf(e.value));
      } else {
        NoStmts();
      }
    }
  }

  lemma OneKeyValue(k: string, v: T.Scalar)
    requires k != ""
    ensures AllKeyed([T.KeyValue(k, v)]) && (AllGood([T.KeyValue(k, v)]) <==> !EndsInNewline(k))
  {
    hide EndsInNewline;
    assert [T.KeyValue(k, v)][0] == T.KeyValue(k, v);
  }

  lemma NoStmts()
    ensures AllKeyed([]) && AllGood([])
  {
  }

  lemma FitsFront(es: seq<Entry>)
    requires Fits(es) && es != []
    ensures Fits(es[..|es| - 1]) && es[|es| - 1].key != "" && FitsValue(es[|es| - 1].value)
  {
  }

  lemma {:induction false} SubsKeyed(es: seq<Entry>, path: seq<string>)
    requires Fits(es) && Named(path)
    ensures AllKeyed(Subs(es, path))
    decreases es, 0
  {
    if es != [] {
      var front, e := es[..|es| - 1], es[|es| - 1];
      FitsFront(es);
      SubsKeyed(front, path);
      SubKeyed(e.value, path + [e.key]);
      KeyedJoin(Subs(front, path), SubOf(e.value, path + [e.key]));
    }
  }

  lemma {:induction false} SubKeyed(v: Value, here: seq<string>)
    requires FitsValue(v) && Named(here) && here != []
    ensures AllKeyed(SubOf(v, here))
    decreases v, 0
  {
    match v
    case Table(entries) =>
      StmtsKeyed(entries, here);
      KeyedJoin([T.Header(here)], Stmts(entries, here));
    case List(items) => ItemsKeyed(items, here);
    case _ =>
  }

  lemma {:induction false} ItemsKeyed(items: seq<Value>, here: seq<string>)
    requires (forall i :: 0 <= i < |items| ==> items[i].Table? && Fits(items[i].entries)) && Named(here) && here != []
    ensures AllKeyed(ItemStmts(items, here))
    decreases items, 0
  {
    if items != [] {
      var front, item := items[..|items| - 1], items[|items| - 1];
      ItemsKeyed(front, here);
      StmtsKeyed(item.entries, here);
      KeyedJoin([T.ArrayHeader(here)], Stmts(item.entries, here));
      KeyedJoin(ItemStmts(front, here), [T.ArrayHeader(here)] + Stmts(item.entries, here));
    }
  }

  lemma {:induction false} StmtsKeyed(es: seq<Entry>, path: seq<string>)
    requires Fits(es) && Named(path)
    ensures AllKeyed(Stmts(es, path))
    decreases es, 1
  {
    ScalarsGood(es);
    SubsKeyed(es, path);
    KeyedJoin(Scalars(es), Subs(es, path));
  }

  // ---- the statements are good exactly when the tree is ---------------------------------

  ghost predicate GoodSubs(es: seq<Entry>) {
    forall i :: 0 <= i < |es| && IsSub(es[i].value) ==> !EndsInNewline(es[i].key) && GoodValue(es[i].value)
  }

  lemma {:induction false} SubsGood(es: seq<Entry>, path: seq<string>)
    requires Fits(es) && forall i :: 0 <= i < |path| ==> GoodKey(path[i])
    ensures AllGood(Subs(es, path)) <==> GoodSubs(es)
    decreases es, 0
  {
    if es != [] {
      var front, e := es[..|es| - 1], es[|es| - 1];
      FitsFront(es);
      SubsGood(front, path);
      assert GoodSubs(es) <==> GoodSubs(front) && (IsSub(e.value) ==> !EndsInNewline(e.key) && GoodValue(e.value)) by {
        hide GoodValue, EndsInNewline;
        assert forall i :: 0 <= i < |front| ==> front[i] == es[i];
      }
      SubGood(e.value, path, e.key);
      hide GoodSubs, GoodValue, EndsInNewline, Fits, AllGood, SubOf;
      KeyedJoin(Subs(front, path), SubOf(e.value, path + [e.key]));
    }
  }

  lemma {:induction false} SubGood(v: Value, path: seq<string>, k: string)
    requires FitsValue(v) && k != "" && forall i :: 0 <= i < |path| ==> GoodKey(path[i])
    ensures AllGood(SubOf(v, path + [k])) <==> (IsSub(v) ==> !EndsInNewline(k) && GoodValue(v))
    decreases v, 0
  {
    PathGood(path, k);
    match v
    case Table(entries) =>
      KeyedJoin([T.Header(path + [k])], Stmts(entries, path + [k]));
      HeaderGood(T.Header(path + [k]));
      if !EndsInNewline(k) { StmtsGood(entries, path + [k]); }
    case List(items) =>
      if !EndsInNewline(k) {
        ItemsGood(items, path + [k]);
      } else if items != [] {
        BadItems(items, path + [k]);
      }
    case _ =>
  }

  lemma PathGood(path: seq<string>, k: string)
    requires k != "" && forall i :: 0 <= i < |path| ==> GoodKey(path[i])
    ensures GoodPath(path + [k]) <==> !EndsInNewline(k)
    ensures !EndsInNewline(k) ==> forall i :: 0 <= i < |path + [k]| ==> GoodKey((path + [k])[i])
  {
    hide EndsInNewline;
    assert (path + [k])[|path|] == k;
  }

  lemma HeaderGood(s: T.Stmt)
    ensures AllGood([s]) <==> GoodStmt(s)
  {
    hide GoodStmt;
    assert [s][0] == s;
  }

  lemma {:induction false} ItemsGood(items: seq<Value>, here: seq<string>)
    requires (forall i :: 0 <= i < |items| ==> items[i].Table? && Fits(items[i].entries))
    requires GoodPath(here)
    ensures AllGood(ItemStmts(items, here)) <==> forall i :: 0 <= i < |items| ==> GoodValue(items[i])
    decreases items, 0
  {
    if items != [] {
      var front, item := items[..|items| - 1], items[|items| - 1];
      ItemsGood(front, here);
      StmtsGood(item.entries, here);
      assert AllGood([T.ArrayHeader(here)]) by { HeaderGood(T.ArrayHeader(here)); }
      assert GoodValue(item) <==> GoodTree(item.entries);
      hide AllGood, GoodPath, Stmts, GoodValue, GoodTree, Fits, ItemStmts;
      LastItem(items, here);
      LastOff(items);
      KeyedJoin([T.ArrayHeader(here)], Stmts(item.entries, here));
      KeyedJoin(ItemStmts(front, here), [T.ArrayHeader(here)] + Stmts(item.entries, here));
    }
  }

  lemma LastItem(items: seq<Value>, here: seq<string>)
    requires items != [] && items[|items| - 1].Table?
    ensures var front, item := items[..|items| - 1], items[|items| - 1];
      ItemStmts(items, here) == ItemStmts(front, here) + ([T.ArrayHeader(here)] + Stmts(item.entries, here))
  {
  }

  lemma {:induction false} BadItems(items: seq<Value>, here: seq<string>)
    requires items != [] && items[|items| - 1].Table? && !GoodPath(here)
    ensures !AllGood(ItemStmts(items, here))
  {
    var item := items[|items| - 1];
    HeaderGood(T.ArrayHeader(here));
    hide AllGood, GoodPath, Stmts;
    KeyedJoin([T.ArrayHeader(here)], Stmts(item.entries, here));
    KeyedJoin(ItemStmts(items[..|items| - 1], here), [T.ArrayHeader(here)] + Stmts(item.entries, here));
  }

  lemma {:induction false} StmtsGood(es: seq<Entry>, path: seq<string>)
    requires Fits(es) && forall i :: 0 <= i < |path| ==> GoodKey(path[i])
    ensures AllGood(Stmts(es, path)) <==> GoodTree(es)
    decreases es, 1
  {
    ScalarsGood(es);
    SubsGood(es, path);
    KeyedJoin(Scalars(es), Subs(es, path));
    forall i | 0 <= i < |es| && !IsSub(es[i].value) ensures GoodValue(es[i].value) {}
  }

  // ---- the text reads back ------------------------------------------------------------------

  lemma {:induction false} LinesFirst(ss: seq<T.Stmt>)
    requires ss != []
    ensures LinesOf(ss) == StmtLines(ss[0]) + LinesOf(ss[1..])
  {
    OneStmt(ss[0]);
    LinesConcat([ss[0]], ss[1..]);
    hide LinesOf, StmtLines;
    assert [ss[0]] + ss[1..] == ss;
  }

  lemma LineStarts(s: T.Stmt)
    requires KeyedStmt(s)
    ensures LineOf(s) != "" && LineOf(s)[0] != '\n'
  {
    if s.KeyValue? {
      KeyStarts(s.key);
      hide Key, ScalarText;
    } else {
      hide Dotted;
    }
  }

  lemma JoinStarts(line: string, lines: seq<string>)
    requires line != "" && line[0] != '\n'
    ensures StripNewlines(Join([line] + lines)) == Join([line] + lines)
    ensures Join([[], line] + lines) == "\n" + Join([line] + lines)
  {
    assert ([line] + lines)[1..] == lines && ([[], line] + lines)[1..] == [line] + lines;
  }

  /** Stripping takes off the empty line before a first header, which reads as nothing. */
  lemma StripReads(ss: seq<T.Stmt>)
    requires AllKeyed(ss)
    ensures ReadLines(SplitLines(StripNewlines(Join(LinesOf(ss))) + "\n")) == ReadEach(LinesOf(ss))
  {
    if ss == [] {
      JoinedReads([]);
    } else {
      var s, rest := ss[0], LinesOf(ss[1..]);
      assert KeyedStmt(s);
      LinesFirst(ss);
      LineStarts(s);
      JoinStarts(LineOf(s), rest);
      JoinedReads([LineOf(s)] + rest);
      if !s.KeyValue? {
        StripOne(Join([LineOf(s)] + rest));
        hide ReadLines, SplitLines, LineOf, Join, StripNewlines;
        BlankFirst([LineOf(s)] + rest);
        assert [[], LineOf(s)] + rest == [[]] + ([LineOf(s)] + rest);
      }
    }
  }

  lemma StripOne(s: string)
    ensures StripNewlines("\n" + s) == StripNewlines(s)
  {
    assert ("\n" + s)[1..] == s;
  }

  lemma BlankFirst(lines: seq<string>)
    ensures ReadEach([[]] + lines) == ReadEach(lines)
  {
    BlankReads();
    assert ([[]] + lines)[1..] == lines;
    BothLaws(ReadEach(lines), None, None);
    hide ReadLines, SplitLines, Both;
  }

  /** For every tree the printer takes: its text, read as TOML, is that tree again,
      exactly when no key lets a newline through at its end; otherwise the text is
      not TOML at all. */
  lemma PrintsBackIff(es: seq<Entry>)
    requires IsDict(es) && Fits(es)
    ensures Parse(Dumps(es)) == if GoodTree(es) then Some(TreeOf(es)) else None
  {
    var ss := Stmts(es, []);
    StmtsKeyed(es, []);
    StmtsGood(es, []);
    StripReads(ss);
    LinesReadIff(ss);
    StatementsMakeTheTree(es);
    hide IsDict, Fits, GoodTree, AllKeyed, AllGood, ReadLines, SplitLines, T.Run, LinesOf;
  }

  /** The smallest such tree. */
  lemma NewlineKeyIsNotRead()
    ensures Parse(Dumps([Entry("a\n", Int(1))])) == None
  {
    var k := "a\n";
    var es := [Entry(k, Int(1))];
    assert EndsInNewline(k) by { assert k[..1] == "a" && |k| == 2 && k[1] == '\n'; }
    assert es[0].key == k && |es[0].key| == 2;
    assert !GoodTree(es);
    PrintsBackIff(es);
  }

  // ---- the printing loop ------------------------------------------------------------------------

  /** `_scalar`; none when it raises. */
  method PrintScalar(v: Value) returns (text: Option<string>)
    ensures text.Some? <==> v.Str? || v.Bool? || v.Int?
    ensures text.Some? ==> text.value == ScalarText(ScalarOf(v))
  {
    match v
    case Str(s) =>
      var q := QuoteString(s);
      text := Some(q);
    case Bool(b) => text := Some(if b then "true" else "false");
    case Int(n) => text := Some(ScalarText(T.Integer(n)));
    case _ => text := None;
  }

  /** `_key`; none when it raises. */
  method PrintKey(k: string) returns (text: Option<string>)
    ensures text.Some? <==> k != ""
    ensures text.Some? ==> text.value == Key(k)
  {
    if k == "" { return None; }
    if BareMatch(k) { return Some(k); }
    var q := QuoteString(k);
    text := Some(q);
  }

  /** A first part of a table prints. */
  predicate ScalarsFit(entries: seq<Entry>) {
    forall i :: 0 <= i < |entries| && !IsSub(entries[i].value) ==> entries[i].key != "" && FitsValue(entries[i].value)
  }

  predicate SubsFit(entries: seq<Entry>) {
    forall i :: 0 <= i < |entries| && IsSub(entries[i].value) ==> entries[i].key != "" && FitsValue(entries[i].value)
  }

  predicate TablesFit(items: seq<Value>) {
    forall i :: 0 <= i < |items| ==> items[i].Table? && Fits(items[i].entries)
  }

  lemma {:induction false} LinesConcat(a: seq<T.Stmt>, b: seq<T.Stmt>)
    ensures LinesOf(a + b) == LinesOf(a) + LinesOf(b)
  {
    hide LineOf;
    if b == [] {
      assert a + b == a && LinesOf(a) + [] == LinesOf(a);
    } else {
      var front := b[..|b| - 1];
      LinesConcat(a, front);
      assert (a + b)[..|a + b| - 1] == a + front;
      LinesMore(a + b);
      LinesMore(b);
      assert LinesOf(a) + LinesOf(front) + StmtLines(b[|b| - 1]) == LinesOf(a) + (LinesOf(front) + StmtLines(b[|b| - 1]));
    }
  }

  /** One line, or a header's two, more. */
  lemma OutMore(out: seq<string>, done: seq<T.Stmt>, more: seq<T.Stmt>)
    ensures out + LinesOf(done) + LinesOf(more) == out + LinesOf(done + more)
  {
    LinesConcat(done, more);
    hide LinesOf;
    assert out + LinesOf(done) + LinesOf(more) == out + (LinesOf(done) + LinesOf(more));
  }

  lemma OneStmt(s: T.Stmt)
    ensures LinesOf([s]) == StmtLines(s)
  {
    hide LineOf;
    LinesMore([s]);
    assert [s][..0] == [] && [] + StmtLines(s) == StmtLines(s);
  }

  /** The plain keys of a table, in order. */
  method EmitScalars(table: seq<Entry>, out: seq<string>) returns (ok: bool, out': seq<string>)
    ensures ok <==> ScalarsFit(table)
    ensures ok ==> out' == out + LinesOf(Scalars(table))
  {
    out' := out;
    NothingOut(out, table);
    hide LinesOf, Scalars;
    for i := 0 to |table|
      invariant ScalarsFit(table[..i]) && out' == out + LinesOf(Scalars(table[..i]))
    {
      var e := table[i];
      NextScalar(table, i);
      if !IsSub(e.value) {
        var k := PrintKey(e.key);
        if k.None? { return false, out'; }
        var text: Option<string> := Some("[]");
        if !e.value.List? {
          text := PrintScalar(e.value);
          if text.None? { return false, out'; }
        }
        OneStmt(T.KeyValue(e.key, ScalarOf(e.value)));
        OutMore(out, Scalars(table[..i]), [T.KeyValue(e.key, ScalarOf(e.value))]);
        out' := out' + [k.value + " = " + text.value];
      }
    }
    assert table[..|table|] == table;
    ok := true;
  }

  lemma NothingOut(out: seq<string>, table: seq<Entry>)
    ensures out == out + LinesOf(Scalars(table[..0])) && ScalarsFit(table[..0])
    ensures out == out + LinesOf(Subs(table[..0], [])) && SubsFit(table[..0])
  {
  }

  lemma NextScalar(table: seq<Entry>, i: nat)
    requires i < |table|
    ensures var e := table[i];
      && ScalarsFit(table[..i + 1]) == (ScalarsFit(table[..i]) && (!IsSub(e.value) ==> e.key != "" && FitsValue(e.value)))
      && (ScalarsFit(table) ==> ScalarsFit(table[..i + 1]))
      && Scalars(table[..i + 1])
         == Scalars(table[..i]) + (if IsSub(e.value) then [] else [T.KeyValue(e.key, ScalarOf(e.value))])
      && Scalars(table[..i]) + [] == Scalars(table[..i])
      && (!IsSub(e.value) && !e.value.List? ==> (FitsValue(e.value) <==> e.value.Str? || e.value.Bool? || e.value.Int?))
      && (!IsSub(e.value) && e.value.List? ==> FitsValue(e.value) && ScalarText(ScalarOf(e.value)) == "[]")
  {
    var now, next := table[..i], table[..i + 1];
    assert next[..|next| - 1] == now && next[i] == table[i];
    assert forall j :: 0 <= j < i ==> next[j] == now[j];
    assert forall j :: 0 <= j <= i ==> next[j] == table[j];
  }

  lemma NextSub(table: seq<Entry>, i: nat, raw: seq<string>)
    requires i < |table|
    ensures var e := table[i];
      && SubsFit(table[..i + 1]) == (SubsFit(table[..i]) && (IsSub(e.value) ==> e.key != "" && FitsValue(e.value)))
      && (SubsFit(table) ==> SubsFit(table[..i + 1]))
      && Subs(table[..i + 1], raw) == Subs(table[..i], raw) + SubOf(e.value, raw + [e.key])
      && (!IsSub(e.value) ==> SubOf(e.value, raw + [e.key]) == [])
      && Subs(table[..i], raw) + [] == Subs(table[..i], raw)
  {
    var now, next := table[..i], table[..i + 1];
    assert next[..|next| - 1] == now && next[i] == table[i];
    assert forall j :: 0 <= j < i ==> next[j] == now[j];
    assert forall j :: 0 <= j <= i ==> next[j] == table[j];
    hide FitsValue;
  }

  lemma NextItem(items: seq<Value>, i: nat, raw: seq<string>)
    requires i < |items| && items[i].Table?
    ensures ItemStmts(items[..i + 1], raw)
            == ItemStmts(items[..i], raw) + [T.ArrayHeader(raw)] + Stmts(items[i].entries, raw)
    ensures TablesFit(items[..i + 1]) <==> TablesFit(items[..i]) && Fits(items[i].entries)
    ensures TablesFit(items) ==> TablesFit(items[..i + 1])
  {
    var now, next := items[..i], items[..i + 1];
    assert next[..|next| - 1] == now && next[i] == items[i];
    hide Stmts, Fits;
    assert forall j :: 0 <= j < i ==> next[j] == now[j];
    assert ItemStmts(now, raw) + ([T.ArrayHeader(raw)] + Stmts(items[i].entries, raw))
        == ItemStmts(now, raw) + [T.ArrayHeader(raw)] + Stmts(items[i].entries, raw);
  }

  lemma KeysMore(raw: seq<string>, k: string)
    ensures Keys(raw + [k]) == Keys(raw) + [Key(k)]
  {
    hide Key;
  }

  /** Each table of an array of tables, under its own header. */
  method EmitItems(items: seq<Value>, here: seq<string>, ghost raw: seq<string>, out: seq<string>)
    returns (ok: bool, out': seq<string>)
    requires here == Keys(raw) && forall i :: 0 <= i < |items| ==> items[i].Table?
    ensures ok <==> TablesFit(items)
    ensures ok ==> out' == out + LinesOf(ItemStmts(items, raw))
    decreases items, 0
  {
    out' := out;
    var name := Dotted(here);
    NoItems(out, items, raw);
    hide *;
    for i := 0 to |items|
      invariant TablesFit(items[..i]) && out' == out + LinesOf(ItemStmts(items[..i], raw))
    {
      ghost var done := ItemStmts(items[..i], raw);
      NextItem(items, i, raw);
      ArrayHeaderLines(raw);
      OutMore(out, done, [T.ArrayHeader(raw)]);
      out' := out' + [[], "[[" + name + "]]"];
      ok, out' := Emit(items[i].entries, here, raw, out');
      if !ok { return; }
      OutMore(out, done + [T.ArrayHeader(raw)], Stmts(items[i].entries, raw));
    }
    NoItems(out, items, raw);
    ok := true;
  }

  lemma NoItems(out: seq<string>, items: seq<Value>, raw: seq<string>)
    ensures out == out + LinesOf(ItemStmts(items[..0], raw)) && TablesFit(items[..0]) && items[..|items|] == items
  {
  }

  lemma ArrayHeaderLines(raw: seq<string>)
    ensures LinesOf([T.ArrayHeader(raw)]) == [[], "[[" + Dotted(Keys(raw)) + "]]"]
  {
    OneStmt(T.ArrayHeader(raw));
    hide Dotted, Keys;
  }

  /** The tables and arrays of tables of a table, each under its header. */
  method EmitSubs(table: seq<Entry>, path: seq<string>, ghost raw: seq<string>, out: seq<string>)
    returns (ok: bool, out': seq<string>)
    requires path == Keys(raw)
    ensures ok <==> SubsFit(table)
    ensures ok ==> out' == out + LinesOf(Subs(table, raw))
    decreases table, 0
  {
    out' := out;
    assert out == out + LinesOf(Subs(table[..0], raw)) && SubsFit(table[..0]);
    hide LinesOf, Subs, Fits, Stmts, ItemStmts, Keys, Key;
    for i := 0 to |table|
      invariant SubsFit(table[..i]) && out' == out + LinesOf(Subs(table[..i], raw))
    {
      var e := table[i];
      NextSub(table, i, raw);
      if IsSub(e.value) {
        var k := PrintKey(e.key);
        if k.None? { return false, out'; }
        var here := path + [k.value];
        KeysMore(raw, e.key);
        ghost var deep := raw + [e.key];
        OutMore(out, Subs(table[..i], raw), SubOf(e.value, deep));
        match e.value
        case Table(entries) =>
          OneStmt(T.Header(deep));
          OutMore(out', [T.Header(deep)], Stmts(entries, deep));
          out' := out' + [[], "[" + Dotted(here) + "]"];
          ok, out' := Emit(entries, here, deep, out');
          if !ok { return; }
        case List(items) =>
          if exists j :: 0 <= j < |items| && !items[j].Table? { return false, out'; }
          ok, out' := EmitItems(items, here, deep, out');
          if !ok { return; }
      }
    }
    assert table[..|table|] == table;
    ok := true;
  }

  /** `_emit`: every line of one table, appended; false when it raises. */
  method Emit(table: seq<Entry>, path: seq<string>, ghost raw: seq<string>, out: seq<string>)
    returns (ok: bool, out': seq<string>)
    requires path == Keys(raw)
    ensures ok <==> Fits(table)
    ensures ok ==> out' == out + LinesOf(Stmts(table, raw))
    decreases table, 1
  {
    FitsParts(table);
    OutMore(out, Scalars(table), Subs(table, raw));
    hide LinesOf, Fits, ScalarsFit, SubsFit;
    ok, out' := EmitScalars(table, out);
    if ok {
      ok, out' := EmitSubs(table, path, raw, out');
    }
  }

  lemma FitsParts(table: seq<Entry>)
    ensures Fits(table) <==> ScalarsFit(table) && SubsFit(table)
  {
    hide FitsValue;
  }

  /** `dumps_toml`; none when it raises. */
  method DumpsToml(data: seq<Entry>) returns (text: Option<string>)
    ensures text.Some? <==> Fits(data)
    ensures text.Some? ==> text.value == Dumps(data)
    ensures IsDict(data) && text.Some? && GoodTree(data) ==> Parse(text.value) == Some(TreeOf(data))
  {
    assert Keys([]) == [];
    var ok, out := Emit(data, [], [], []);
    if !ok { return None; }
    assert [] + LinesOf(Stmts(data, [])) == LinesOf(Stmts(data, []));
    if IsDict(data) { PrintsBackIff(data); }
    text := Some(StripNewlines(Join(out)) + "\n");
  }
}
