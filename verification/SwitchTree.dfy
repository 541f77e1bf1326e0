/** The trees `dumps_toml` prints (sinkswitch.py), the statements it prints for
    them, and the document those statements make. */
module SwitchTree {
  import opened Cursors
  import T = Toml

  datatype Value = Str(s: string) | Bool(b: bool) | Int(n: int) | Table(entries: seq<Entry>) | List(items: seq<Value>) | Null

  datatype Entry = Entry(key: string, value: Value)

  // ---- what the printer takes --------------------------------------------------------

  /** Printed after the plain keys, under a header of its own. */
  predicate IsSub(v: Value) {
    v.Table? || (v.List? && v.items != [])
  }

  function ScalarOf(v: Value): T.Scalar {
    match v
    case Str(s) => T.Text(s)
    case Bool(b) => T.Boolean(b)
    case Int(n) => T.Integer(n)
    case _ => T.EmptyArray
  }

  /** The printer raises on no part of it. */
  predicate Fits(entries: seq<Entry>)
    decreases entries
  {
    forall i :: 0 <= i < |entries| ==> entries[i].key != "" && FitsValue(entries[i].value)
  }

  predicate FitsValue(v: Value)
    decreases v
  {
    match v
    case Null => false
    case Table(entries) => Fits(entries)
    case List(items) => forall i :: 0 <= i < |items| ==> items[i].Table? && Fits(items[i].entries)
    case _ => true
  }

  /** A mapping's keys are distinct. */
  predicate IsDict(entries: seq<Entry>)
    decreases entries
  {
    && (forall i, j :: 0 <= i < j < |entries| ==> entries[i].key != entries[j].key)
    && forall i :: 0 <= i < |entries| ==> IsDictValue(entries[i].value)
  }

  predicate IsDictValue(v: Value)
    decreases v
  {
    match v
    case Table(entries) => IsDict(entries)
    case List(items) => forall i :: 0 <= i < |items| ==> IsDictValue(items[i])
    case _ => true
  }

  // ---- the statements it prints ---------------------------------------------------------

  function Scalars(entries: seq<Entry>): seq<T.Stmt> {
    if entries == [] then []
    else
      var e := entries[|entries| - 1];
      Scalars(entries[..|entries| - 1]) + if IsSub(e.value) then [] else [T.KeyValue(e.key, ScalarOf(e.value))]
  }

  function Subs(entries: seq<Entry>, path: seq<string>): seq<T.Stmt>
    decreases entries, 0
  {
    if entries == [] then []
    else
      var e := entries[|entries| - 1];
      Subs(entries[..|entries| - 1], path) + SubOf(e.value, path + [e.key])
  }

  function SubOf(v: Value, here: seq<string>): seq<T.Stmt>
    decreases v, 0
  {
    match v
    case Table(entries) => [T.Header(here)] + Stmts(entries, here)
    case List(items) => ItemStmts(items, here)
    case _ => []
  }

  function ItemStmts(items: seq<Value>, here: seq<string>): seq<T.Stmt>
    decreases items, 0
  {
    if items == [] then []
    else
      var item := items[|items| - 1];
      ItemStmts(items[..|items| - 1], here)
      + if item.Table? then [T.ArrayHeader(here)] + Stmts(item.entries, here) else []
  }

  function Stmts(entries: seq<Entry>, path: seq<string>): seq<T.Stmt>
    decreases entries, 1
  {
    Scalars(entries) + Subs(entries, path)
  }

  // ---- the document they make --------------------------------------------------------------

  /** The tree as a TOML document: every table named by a header of its own. */
  function NodeOf(v: Value): T.Node
    decreases v
  {
    match v
    case Table(entries) => T.Tbl(TreeOf(entries), true)
    case List(items) => if items == [] then T.Leaf(T.EmptyArray) else T.Arr(TreesOf(items))
    case _ => T.Leaf(ScalarOf(v))
  }

  function TreesOf(items: seq<Value>): seq<T.Tree>
    decreases items
  {
    if items == [] then []
    else
      var item := items[|items| - 1];
      TreesOf(items[..|items| - 1]) + if item.Table? then [TreeOf(item.entries)] else []
  }

  function TreeOf(entries: seq<Entry>): T.Tree
    decreases entries
  {
    if entries == [] then map[]
    else
      var e := entries[|entries| - 1];
      TreeOf(entries[..|entries| - 1])[e.key := NodeOf(e.value)]
  }

  // ---- statements as steps within one table ---------------------------------------------------

  function Puts(entries: seq<Entry>): seq<T.Op> {
    if entries == [] then []
    else
      var e := entries[|entries| - 1];
      Puts(entries[..|entries| - 1]) + if IsSub(e.value) then [] else [T.Put(e.key, ScalarOf(e.value))]
  }

  function SubOps(entries: seq<Entry>): seq<T.Op>
    decreases entries, 0
  {
    if entries == [] then []
    else
      var e := entries[|entries| - 1];
      SubOps(entries[..|entries| - 1]) + OpsOf(e.key, e.value)
  }

  function OpsOf(k: string, v: Value): seq<T.Op>
    decreases v, 0
  {
    match v
    case Table(entries) => [T.Define(k), T.In(k, Ops(entries))]
    case List(items) => ItemOps(k, items)
    case _ => []
  }

  function ItemOps(k: string, items: seq<Value>): seq<T.Op>
    decreases items, 0
  {
    if items == [] then []
    else
      var item := items[|items| - 1];
      ItemOps(k, items[..|items| - 1]) + if item.Table? then [T.Append(k), T.In(k, Ops(item.entries))] else []
  }

  function Ops(entries: seq<Entry>): seq<T.Op>
    decreases entries, 1
  {
    Puts(entries) + SubOps(entries)
  }

  /** The path names a table that is there. */
  ghost predicate Lands(m: T.Tree, path: seq<string>) {
    T.ApplyAll(m, T.Within(path, [])) == Some(m)
  }

  lemma Then(m: T.Tree, path: seq<string>, a: seq<T.Op>, b: seq<T.Op>)
    ensures T.ApplyAll(m, T.Within(path, a + b))
            == match T.ApplyAll(m, T.Within(path, a)) case None => None case Some(m1) => T.ApplyAll(m1, T.Within(path, b))
  {
    T.ApplyConcat(m, T.Within(path, a), T.Within(path, b));
    T.WithinTwice(m, path, a, b);
  }

  lemma StillLands(m: T.Tree, path: seq<string>, a: seq<T.Op>, m1: T.Tree)
    requires T.ApplyAll(m, T.Within(path, a)) == Some(m1)
    ensures Lands(m1, path)
  {
    Then(m, path, a, []);
    assert a + [] == a;
  }

  lemma {:induction false} WithinSame(m: T.Tree, path: seq<string>, a: seq<T.Op>, b: seq<T.Op>)
    requires forall t :: T.ApplyAll(t, a) == T.ApplyAll(t, b)
    ensures T.ApplyAll(m, T.Within(path, a)) == T.ApplyAll(m, T.Within(path, b))
    decreases |path|
  {
    if path != [] {
      if T.Target(m, path[0]).Some? { WithinSame(T.Target(m, path[0]).value, path[1..], a, b); }
      T.EnterSame(m, path[0], T.Within(path[1..], a), T.Within(path[1..], b));
    }
  }

  function Resulting(r: Option<(T.Tree, seq<string>)>): Option<T.Tree> {
    if r.Some? then Some(r.value.0) else None
  }

  lemma RunOne(m: T.Tree, current: seq<string>, s: T.Stmt)
    ensures T.Run(m, current, [s]) == T.Exec(m, current, s)
  {
    assert [s][..0] == [];
  }

  /** The plain keys of a table land in it. */
  lemma {:induction false} ScalarsRun(m: T.Tree, path: seq<string>, es: seq<Entry>)
    requires Lands(m, path)
    ensures T.Run(m, path, Scalars(es))
            == match T.ApplyAll(m, T.Within(path, Puts(es))) case None => None case Some(m') => Some((m', path))
  {
    if es != [] {
      var front, e := es[..|es| - 1], es[|es| - 1];
      ScalarsRun(m, path, front);
      if IsSub(e.value) {
        assert Scalars(front) + [] == Scalars(front) && Puts(front) + [] == Puts(front);
      } else {
        hide T.ApplyAll, T.Within;
        var put := T.Put(e.key, ScalarOf(e.value));
        T.RunConcat(m, path, Scalars(front), [T.KeyValue(e.key, ScalarOf(e.value))]);
        Then(m, path, Puts(front), [put]);
        if T.ApplyAll(m, T.Within(path, Puts(front))).Some? {
          RunOne(T.ApplyAll(m, T.Within(path, Puts(front))).value, path, T.KeyValue(e.key, ScalarOf(e.value)));
        }
      }
    }
  }

  /** Naming a table, then entering it with nothing, changes no more. */
  lemma NamedLands(m: T.Tree, path: seq<string>, k: string, op: T.Op, m1: T.Tree)
    requires op in {T.Define(k), T.Append(k)} && T.ApplyAll(m, T.Within(path, [op])) == Some(m1)
    ensures Lands(m1, path + [k])
  {
    forall t ensures T.ApplyAll(t, [op] + [T.In(k, [])]) == T.ApplyAll(t, [op]) {
      NamedThenEntered(t, k, op);
    }
    WithinSame(m, path, [op] + [T.In(k, [])], [op]);
    Then(m, path, [op], [T.In(k, [])]);
    T.WithinDeeper(path, k, []);
  }

  lemma NamedThenEntered(t: T.Tree, k: string, op: T.Op)
    requires op in {T.Define(k), T.Append(k)}
    ensures T.ApplyAll(t, [op] + [T.In(k, [])]) == T.ApplyAll(t, [op])
  {
    T.ApplyConcat(t, [op], [T.In(k, [])]);
    T.ApplyOne(t, op);
    if T.Apply(t, op).Some? {
      var t1 := T.Apply(t, op).value;
      T.ApplyOne(t1, T.In(k, []));
      EnterForNothing(t1, k);
    }
  }

  lemma EnterForNothing(t: T.Tree, k: string)
    requires k in t && T.Target(t, k).Some?
    ensures T.Apply(t, T.In(k, [])) == Some(t)
  {
    if t[k].Arr? {
      var items := t[k].items;
      assert items[..|items| - 1] + [items[|items| - 1]] == items;
    }
    assert t[k := t[k]] == t;
  }

  /** A header, then the table's own statements. */
  lemma {:induction false} NamedRun(m: T.Tree, current: seq<string>, path: seq<string>, k: string, op: T.Op, es: seq<Entry>)
    requires op in {T.Define(k), T.Append(k)} && Lands(m, path)
    ensures var header := if op.Define? then T.Header(path + [k]) else T.ArrayHeader(path + [k]);
      Resulting(T.Run(m, current, [header] + Stmts(es, path + [k])))
      == T.ApplyAll(m, T.Within(path, [op, T.In(k, Ops(es))]))
    decreases es, 2
  {
    var here := path + [k];
    var header := if op.Define? then T.Header(here) else T.ArrayHeader(here);
    assert here[..|here| - 1] == path && here[|here| - 1] == k;
    hide T.ApplyAll, T.Within, Stmts, Ops;
    T.RunConcat(m, current, [header], Stmts(es, here));
    RunOne(m, current, header);
    assert [op] + [T.In(k, Ops(es))] == [op, T.In(k, Ops(es))];
    Then(m, path, [op], [T.In(k, Ops(es))]);
    if T.ApplyAll(m, T.Within(path, [op])).Some? {
      var m1 := T.ApplyAll(m, T.Within(path, [op])).value;
      NamedLands(m, path, k, op, m1);
      TableRun(m1, here, es);
      T.WithinDeeper(path, k, Ops(es));
    }
  }

  /** All the statements of one table are steps within it. */
  lemma {:induction false} TableRun(m: T.Tree, path: seq<string>, es: seq<Entry>)
    requires Lands(m, path)
    ensures Resulting(T.Run(m, path, Stmts(es, path))) == T.ApplyAll(m, T.Within(path, Ops(es)))
    decreases es, 1
  {
    ScalarsRun(m, path, es);
    T.RunConcat(m, path, Scalars(es), Subs(es, path));
    Then(m, path, Puts(es), SubOps(es));
    hide T.ApplyAll, T.Within, T.Run;
    if T.ApplyAll(m, T.Within(path, Puts(es))).Some? {
      var m1 := T.ApplyAll(m, T.Within(path, Puts(es))).value;
      StillLands(m, path, Puts(es), m1);
      SubsRun(m1, path, path, es);
    }
  }

  lemma {:induction false} SubsRun(m: T.Tree, current: seq<string>, path: seq<string>, es: seq<Entry>)
    requires Lands(m, path)
    ensures Resulting(T.Run(m, current, Subs(es, path))) == T.ApplyAll(m, T.Within(path, SubOps(es)))
    decreases es, 0
  {
    if es != [] {
      var front, e := es[..|es| - 1], es[|es| - 1];
      SubsRun(m, current, path, front);
      T.RunConcat(m, current, Subs(front, path), SubOf(e.value, path + [e.key]));
      Then(m, path, SubOps(front), OpsOf(e.key, e.value));
      hide T.ApplyAll, T.Within, T.Run;
      if T.ApplyAll(m, T.Within(path, SubOps(front))).Some? {
        var (m1, current1) := T.Run(m, current, Subs(front, path)).value;
        StillLands(m, path, SubOps(front), m1);
        SubRun(m1, current1, path, e.key, e.value);
      }
    }
  }

  lemma {:induction false} SubRun(m: T.Tree, current: seq<string>, path: seq<string>, k: string, v: Value)
    requires Lands(m, path)
    ensures Resulting(T.Run(m, current, SubOf(v, path + [k]))) == T.ApplyAll(m, T.Within(path, OpsOf(k, v)))
    decreases v, 0
  {
    match v
    case Table(entries) => NamedRun(m, current, path, k, T.Define(k), entries);
    case List(items) => ItemsRun(m, current, path, k, items);
    case _ =>
  }

  lemma {:induction false} ItemsRun(m: T.Tree, current: seq<string>, path: seq<string>, k: string, items: seq<Value>)
    requires Lands(m, path)
    ensures Resulting(T.Run(m, current, ItemStmts(items, path + [k]))) == T.ApplyAll(m, T.Within(path, ItemOps(k, items)))
    decreases items, 0
  {
    if items != [] {
      var front, item := items[..|items| - 1], items[|items| - 1];
      ItemsRun(m, current, path, k, front);
      if item.Table? {
        var more := [T.ArrayHeader(path + [k])] + Stmts(item.entries, path + [k]);
        hide T.ApplyAll, T.Within, T.Run, Stmts, Ops;
        T.RunConcat(m, current, ItemStmts(front, path + [k]), more);
        Then(m, path, ItemOps(k, front), [T.Append(k), T.In(k, Ops(item.entries))]);
        hide ItemStmts, ItemOps;
        if T.ApplyAll(m, T.Within(path, ItemOps(k, front))).Some? {
          var (m1, current1) := T.Run(m, current, ItemStmts(front, path + [k])).value;
          StillLands(m, path, ItemOps(k, front), m1);
          NamedRun(m1, current1, path, k, T.Append(k), item.entries);
        }
      } else {
        assert ItemStmts(front, path + [k]) + [] == ItemStmts(front, path + [k]) && ItemOps(k, front) + [] == ItemOps(k, front);
      }
    }
  }

  // ---- the document they make, for a tree the printer takes -------------------------------------

  /** The part of a table printed as plain keys, or under headers. */
  function Part(entries: seq<Entry>, subs: bool): T.Tree {
    if entries == [] then map[]
    else
      var e := entries[|entries| - 1];
      var front := Part(entries[..|entries| - 1], subs);
      if IsSub(e.value) == subs then front[e.key := NodeOf(e.value)] else front
  }

  lemma {:induction false} PartKeys(es: seq<Entry>, subs: bool, k: string)
    ensures k in Part(es, subs) <==> exists i :: 0 <= i < |es| && es[i].key == k && IsSub(es[i].value) == subs
  {
    if es != [] {
      var front := es[..|es| - 1];
      PartKeys(front, subs, k);
      if k in Part(front, subs) {
        var i :| 0 <= i < |front| && front[i].key == k && IsSub(front[i].value) == subs;
        assert es[i] == front[i];
      }
    }
  }

  lemma {:induction false} PutsMake(es: seq<Entry>)
    requires IsDict(es) && Fits(es)
    ensures T.ApplyAll(map[], Puts(es)) == Some(Part(es, false))
  {
    if es != [] {
      var front, e := es[..|es| - 1], es[|es| - 1];
      DictFront(es);
      PutsMake(front);
      if IsSub(e.value) {
        assert Puts(front) + [] == Puts(front);
      } else {
        var put := T.Put(e.key, ScalarOf(e.value));
        T.ApplyConcat(map[], Puts(front), [put]);
        T.ApplyOne(Part(front, false), put);
        PartKeys(front, false, e.key);
        assert FitsValue(e.value) && NodeOf(e.value) == T.Leaf(ScalarOf(e.value));
      }
    }
  }

  lemma DictFront(es: seq<Entry>)
    requires IsDict(es) && es != []
    ensures IsDict(es[..|es| - 1]) && IsDictValue(es[|es| - 1].value)
    ensures var front := es[..|es| - 1]; forall i :: 0 <= i < |front| ==> front[i].key != es[|es| - 1].key
    ensures Fits(es) ==> Fits(es[..|es| - 1]) && FitsValue(es[|es| - 1].value) && es[|es| - 1].key != ""
  {
  }

  /** Naming a fresh table and filling it. */
  lemma NamedMakes(m: T.Tree, k: string, es: seq<Entry>)
    requires k !in m && IsDict(es) && Fits(es)
    ensures T.ApplyAll(m, [T.Define(k), T.In(k, Ops(es))]) == Some(m[k := T.Tbl(TreeOf(es), true)])
    decreases es, 2
  {
    TableMakes(es);
    hide Ops, TreeOf, IsDict, Fits;
    assert [T.Define(k)] + [T.In(k, Ops(es))] == [T.Define(k), T.In(k, Ops(es))];
    T.ApplyConcat(m, [T.Define(k)], [T.In(k, Ops(es))]);
    T.ApplyOne(m, T.Define(k));
    var m1: T.Tree := m[k := T.Tbl(map[], true)];
    T.ApplyOne(m1, T.In(k, Ops(es)));
    assert m1[k := T.Tbl(TreeOf(es), true)] == m[k := T.Tbl(TreeOf(es), true)];
  }

  lemma {:induction false} TableMakes(es: seq<Entry>)
    requires IsDict(es) && Fits(es)
    ensures T.ApplyAll(map[], Ops(es)) == Some(TreeOf(es))
    decreases es, 1
  {
    PutsMake(es);
    forall i | 0 <= i < |es| && IsSub(es[i].value) ensures es[i].key !in Part(es, false) {
      PartKeys(es, false, es[i].key);
    }
    SubsMake(Part(es, false), es);
    T.ApplyConcat(map[], Puts(es), SubOps(es));
    PartsJoin(es);
  }

  lemma {:induction false} PartsJoin(es: seq<Entry>)
    requires IsDict(es)
    ensures Part(es, false) + Part(es, true) == TreeOf(es)
  {
    if es != [] {
      var front, e := es[..|es| - 1], es[|es| - 1];
      DictFront(es);
      PartsJoin(front);
      PartKeys(front, true, e.key);
      PartKeys(front, false, e.key);
    }
  }

  lemma {:induction false} SubsMake(m: T.Tree, es: seq<Entry>)
    requires IsDict(es) && Fits(es)
    requires forall i :: 0 <= i < |es| && IsSub(es[i].value) ==> es[i].key !in m
    ensures T.ApplyAll(m, SubOps(es)) == Some(m + Part(es, true))
    decreases es, 0
  {
    if es != [] {
      var front, e := es[..|es| - 1], es[|es| - 1];
      DictFront(es);
      forall i | 0 <= i < |front| && IsSub(front[i].value) ensures front[i].key !in m { assert es[i] == front[i]; }
      SubsMake(m, front);
      T.ApplyConcat(m, SubOps(front), OpsOf(e.key, e.value));
      PartKeys(front, true, e.key);
      var m1 := m + Part(front, true);
      if IsSub(e.value) {
        SubMakes(m1, e.key, e.value);
        assert m1[e.key := NodeOf(e.value)] == m + Part(front, true)[e.key := NodeOf(e.value)];
      } else {
        assert OpsOf(e.key, e.value) == [] && SubOps(front) + [] == SubOps(front);
      }
    } else {
      assert m + Part(es, true) == m;
    }
  }

  lemma {:induction false} SubMakes(m: T.Tree, k: string, v: Value)
    requires k !in m && IsSub(v) && IsDictValue(v) && FitsValue(v)
    ensures T.ApplyAll(m, OpsOf(k, v)) == Some(m[k := NodeOf(v)])
    decreases v, 0
  {
    match v
    case Table(entries) => NamedMakes(m, k, entries);
    case List(items) => ItemsMake(m, k, items);
  }

  lemma {:induction false} ItemsMake(m: T.Tree, k: string, items: seq<Value>)
    requires k !in m && (forall i :: 0 <= i < |items| ==> items[i].Table? && Fits(items[i].entries) && IsDict(items[i].entries))
    ensures T.ApplyAll(m, ItemOps(k, items)) == Some(if items == [] then m else m[k := T.Arr(TreesOf(items))])
    decreases items, 0
  {
    if items != [] {
      var front, item := items[..|items| - 1], items[|items| - 1];
      ItemsMake(m, k, front);
      TableMakes(item.entries);
      hide Ops, TreeOf, IsDict, Fits;
      T.ApplyConcat(m, ItemOps(k, front), [T.Append(k), T.In(k, Ops(item.entries))]);
      if front != [] {
        AppendedMakes(m[k := T.Arr(TreesOf(front))], k, TreesOf(front), item.entries);
        assert m[k := T.Arr(TreesOf(front))][k := T.Arr(TreesOf(items))] == m[k := T.Arr(TreesOf(items))];
      } else {
        FirstMakes(m, k, item.entries);
        assert TreesOf(front) == [] && TreesOf(items) == TreesOf(front) + [TreeOf(item.entries)] == [TreeOf(item.entries)];
        assert ItemOps(k, front) == [] && ItemOps(k, items) == ItemOps(k, front) + [T.Append(k), T.In(k, Ops(item.entries))];
      }
    }
  }

  lemma AppendedMakes(m: T.Tree, k: string, trees: seq<T.Tree>, es: seq<Entry>)
    requires k in m && m[k] == T.Arr(trees) && T.ApplyAll(map[], Ops(es)) == Some(TreeOf(es))
    ensures T.ApplyAll(m, [T.Append(k), T.In(k, Ops(es))]) == Some(m[k := T.Arr(trees + [TreeOf(es)])])
  {
    hide Ops, TreeOf;
    assert [T.Append(k)] + [T.In(k, Ops(es))] == [T.Append(k), T.In(k, Ops(es))];
    T.ApplyConcat(m, [T.Append(k)], [T.In(k, Ops(es))]);
    T.ApplyOne(m, T.Append(k));
    var blank: T.Tree := map[];
    EnterLast(m[k := T.Arr(trees + [blank])], k, trees, es);
    assert m[k := T.Arr(trees + [blank])][k := T.Arr(trees + [TreeOf(es)])] == m[k := T.Arr(trees + [TreeOf(es)])];
  }

  lemma FirstMakes(m: T.Tree, k: string, es: seq<Entry>)
    requires k !in m && T.ApplyAll(map[], Ops(es)) == Some(TreeOf(es))
    ensures T.ApplyAll(m, [T.Append(k), T.In(k, Ops(es))]) == Some(m[k := T.Arr([TreeOf(es)])])
  {
    hide Ops, TreeOf;
    assert [T.Append(k)] + [T.In(k, Ops(es))] == [T.Append(k), T.In(k, Ops(es))];
    T.ApplyConcat(m, [T.Append(k)], [T.In(k, Ops(es))]);
    T.ApplyOne(m, T.Append(k));
    var none: seq<T.Tree>, blank: T.Tree := [], map[];
    assert none + [blank] == [blank] && none + [TreeOf(es)] == [TreeOf(es)];
    EnterLast(m[k := T.Arr([blank])], k, none, es);
    assert m[k := T.Arr([blank])][k := T.Arr([TreeOf(es)])] == m[k := T.Arr([TreeOf(es)])];
  }

  lemma EnterLast(m: T.Tree, k: string, trees: seq<T.Tree>, es: seq<Entry>)
    requires k in m && m[k] == T.Arr(trees + [map[]]) && T.ApplyAll(map[], Ops(es)) == Some(TreeOf(es))
    ensures T.ApplyAll(m, [T.In(k, Ops(es))]) == Some(m[k := T.Arr(trees + [TreeOf(es)])])
  {
    hide Ops, TreeOf;
    T.ApplyOne(m, T.In(k, Ops(es)));
    assert (trees + [map[]])[..|trees|] == trees;
  }

  /** The statements of a tree make that tree, and nothing else. */
  lemma StatementsMakeTheTree(es: seq<Entry>)
    requires IsDict(es) && Fits(es)
    ensures Resulting(T.Run(map[], [], Stmts(es, []))) == Some(TreeOf(es))
  {
    var nothing: seq<T.Op> := [];
    assert T.ApplyAll(map[], T.Within([], nothing)) == Some(map[]);
    TableRun(map[], [], es);
    TableMakes(es);
  }
}
