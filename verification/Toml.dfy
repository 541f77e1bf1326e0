/** Reading TOML v1.0.0, as far as a switch file uses it: the Keys, String,
    Integer, Boolean, Array (empty), Table and Array of Tables sections. */
module Toml {
  import opened Cursors

  // ---- documents -----------------------------------------------------------------

  datatype Scalar = Text(s: string) | Boolean(b: bool) | Integer(n: int) | EmptyArray

  /** A document: tables are unordered, and each remembers whether a header named it. */
  datatype Node = Leaf(value: Scalar) | Tbl(entries: map<string, Node>, defined: bool) | Arr(items: seq<map<string, Node>>)

  type Tree = map<string, Node>

  datatype Stmt = KeyValue(key: string, value: Scalar) | Header(path: seq<string>) | ArrayHeader(path: seq<string>)

  // ---- the table rules ----------------------------------------------------------------

  /** What a statement does to the table it lands in; `In` lands one table deeper. */
  datatype Op = Define(key: string) | Append(key: string) | Put(key: string, value: Scalar) | In(key: string, ops: seq<Op>)

  /** The table a key leads to: a missing one is empty; an array of tables stands for
      its last element. */
  function Target(m: Tree, k: string): Option<Tree> {
    if k !in m then Some(map[])
    else
      match m[k]
      case Leaf(_) => None
      case Tbl(entries, _) => Some(entries)
      case Arr(items) => if items == [] then None else Some(items[|items| - 1])
  }

  /** ... and the tree once that table is `sub`. A table made on the way is undefined. */
  function Replace(m: Tree, k: string, sub: Tree): Tree
    requires Target(m, k).Some?
  {
    if k !in m then m[k := Tbl(sub, false)]
    else
      match m[k]
      case Tbl(_, defined) => m[k := Tbl(sub, defined)]
      case Arr(items) => m[k := Arr(items[..|items| - 1] + [sub])]
  }

  /** A header defines a table once; an array header adds an element to an array of
      tables, never to a table or a value; a key is given a value once. */
  function Apply(m: Tree, op: Op): Option<Tree>
    decreases op, 0
  {
    match op
    case Define(k) =>
      if k !in m then Some(m[k := Tbl(map[], true)])
      else
        (match m[k]
         case Tbl(entries, false) => Some(m[k := Tbl(entries, true)])
         case _ => None)
    case Append(k) =>
      if k !in m then Some(m[k := Arr([map[]])])
      else
        (match m[k]
         case Arr(items) => Some(m[k := Arr(items + [map[]])])
         case _ => None)
    case Put(k, v) => if k in m then None else Some(m[k := Leaf(v)])
    case In(k, ops) =>
      if Target(m, k).None? then None
      else
        match ApplyAll(Target(m, k).value, ops)
        case None => None
        case Some(sub) => Some(Replace(m, k, sub))
  }

  function ApplyAll(m: Tree, ops: seq<Op>): Option<Tree>
    decreases ops
  {
    if ops == [] then Some(m)
    else
      match ApplyAll(m, ops[..|ops| - 1])
      case None => None
      case Some(m') => Apply(m', ops[|ops| - 1])
  }

  /** `ops` in the table a path names. */
  function Within(path: seq<string>, ops: seq<Op>): seq<Op> {
    if path == [] then ops else [In(path[0], Within(path[1..], ops))]
  }

  /** What a statement does to the document, after the header that names the current table. */
  function Exec(m: Tree, current: seq<string>, s: Stmt): Option<(Tree, seq<string>)> {
    match s
    case KeyValue(k, v) =>
      (match ApplyAll(m, Within(current, [Put(k, v)]))
       case None => None
       case Some(m') => Some((m', current)))
    case Header(path) =>
      if path == [] then None
      else
        (match ApplyAll(m, Within(path[..|path| - 1], [Define(path[|path| - 1])]))
         case None => None
         case Some(m') => Some((m', path)))
    case ArrayHeader(path) =>
      if path == [] then None
      else
        match ApplyAll(m, Within(path[..|path| - 1], [Append(path[|path| - 1])]))
        case None => None
        case Some(m') => Some((m', path))
  }

  function Run(m: Tree, current: seq<string>, ss: seq<Stmt>): Option<(Tree, seq<string>)> {
    if ss == [] then Some((m, current))
    else
      match Run(m, current, ss[..|ss| - 1])
      case None => None
      case Some((m', current')) => Exec(m', current', ss[|ss| - 1])
  }

  // ---- steps in one table are one step ------------------------------------------------------

  lemma {:induction false} ApplyConcat(m: Tree, a: seq<Op>, b: seq<Op>)
    ensures ApplyAll(m, a + b) == (if ApplyAll(m, a).None? then None else ApplyAll(ApplyAll(m, a).value, b))
  {
    if b == [] {
      assert a + b == a;
    } else {
      assert (a + b)[..|a + b| - 1] == a + b[..|b| - 1];
      ApplyConcat(m, a, b[..|b| - 1]);
    }
  }

  lemma {:induction false} RunConcat(m: Tree, current: seq<string>, a: seq<Stmt>, b: seq<Stmt>)
    ensures Run(m, current, a + b)
            == match Run(m, current, a) case None => None case Some((m', current')) => Run(m', current', b)
  {
    if b == [] {
      assert a + b == a;
    } else {
      assert (a + b)[..|a + b| - 1] == a + b[..|b| - 1];
      RunConcat(m, current, a, b[..|b| - 1]);
    }
  }

  lemma ApplyOne(m: Tree, op: Op)
    ensures ApplyAll(m, [op]) == Apply(m, op)
  {
    assert [op][..0] == [];
  }

  lemma ReplaceTarget(m: Tree, k: string, a: Tree, b: Tree)
    requires Target(m, k).Some?
    ensures Target(Replace(m, k, a), k) == Some(a) && Replace(Replace(m, k, a), k, b) == Replace(m, k, b)
  {
    if k in m && m[k].Arr? {
      LastReplaced(m[k].items[..|m[k].items| - 1], a, b);
    }
    var m' := Replace(m, k, a);
    assert Replace(m', k, b) == Replace(m, k, b);
  }

  lemma LastReplaced<T>(front: seq<T>, a: T, b: T)
    ensures (front + [a])[..|front + [a]| - 1] + [b] == front + [b] && (front + [a])[|front + [a]| - 1] == a
  {
  }

  /** Entering a table twice is entering it once with both. */
  lemma EnterTwice(m: Tree, k: string, a: seq<Op>, b: seq<Op>)
    ensures ApplyAll(m, [In(k, a)] + [In(k, b)]) == ApplyAll(m, [In(k, a + b)])
  {
    ApplyConcat(m, [In(k, a)], [In(k, b)]);
    ApplyOne(m, In(k, a));
    ApplyOne(m, In(k, a + b));
    if Target(m, k).Some? {
      hide Target, Replace;
      var t := Target(m, k).value;
      ApplyConcat(t, a, b);
      if ApplyAll(t, a).Some? {
        var t1 := ApplyAll(t, a).value;
        ApplyOne(Replace(m, k, t1), In(k, b));
        if ApplyAll(t1, b).Some? {
          ReplaceTarget(m, k, t1, ApplyAll(t1, b).value);
        } else {
          ReplaceTarget(m, k, t1, t1);
        }
      }
    }
  }

  lemma EnterSame(m: Tree, k: string, a: seq<Op>, b: seq<Op>)
    requires Target(m, k).Some? ==> ApplyAll(Target(m, k).value, a) == ApplyAll(Target(m, k).value, b)
    ensures ApplyAll(m, [In(k, a)]) == ApplyAll(m, [In(k, b)])
  {
    ApplyOne(m, In(k, a));
    ApplyOne(m, In(k, b));
  }

  lemma {:induction false} WithinTwice(m: Tree, path: seq<string>, a: seq<Op>, b: seq<Op>)
    ensures ApplyAll(m, Within(path, a) + Within(path, b)) == ApplyAll(m, Within(path, a + b))
    decreases |path|
  {
    if path != [] {
      var k, rest := path[0], path[1..];
      EnterTwice(m, k, Within(rest, a), Within(rest, b));
      if Target(m, k).Some? {
        WithinTwice(Target(m, k).value, rest, a, b);
      }
      EnterSame(m, k, Within(rest, a) + Within(rest, b), Within(rest, a + b));
    }
  }

  lemma {:induction false} WithinDeeper(path: seq<string>, k: string, ops: seq<Op>)
    ensures Within(path + [k], ops) == Within(path, [In(k, ops)])
  {
    if path == [] {
      assert path + [k] == [k] && [k][1..] == [];
    } else {
      assert (path + [k])[1..] == path[1..] + [k];
      WithinDeeper(path[1..], k, ops);
    }
  }
}
