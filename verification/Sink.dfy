/** Rows of the sink's `pending_uploads` queue, and the rows one SqliteSource
    scopes and selects. */
module Sink {
  import opened Cursors

  /** What a payload field holds. */
  datatype Json = Null | Bool(b: bool) | Num(n: int) | Text(s: string) | Arr(body: string) | Obj(body: string)

  datatype Row = Row(id: int, db: string, table: string, schema: int, producer: string, local: bool,
                     parseable: bool, fields: map<string, Json>)

  /** The columns an older sink may lack. */
  datatype Columns = Columns(hasProducer: bool, hasLocal: bool)

  datatype Op = Eq | Ne | Lt | Gt | Le | Ge | In | NotIn

  datatype Clause = Clause(col: string, op: Op, values: seq<Json>)

  datatype Source = Source(db: string, table: string, producer: Option<string>, radiod: Option<string>,
                           versions: seq<int>, extra: seq<Clause>)

  /** A source together with the columns of the sink it reads. */
  datatype Reader = Reader(src: Source, cols: Columns)

  const PSK := "psk-recorder"
  const METEOR := "meteor-scatter"
  const MSK144 := "msk144"

  function Field(row: Row, col: string): Json {
    if col in row.fields then row.fields[col] else Null
  }

  // ---- SQL values ------------------------------------------------------------

  datatype Sql = SqlNull | SqlInt(n: int) | SqlText(s: string)

  /** `json_extract`: booleans read 1 and 0, arrays and objects their JSON text. */
  function Extract(v: Json): Sql {
    match v
    case Null => SqlNull
    case Bool(b) => SqlInt(if b then 1 else 0)
    case Num(n) => SqlInt(n)
    case Text(s) => SqlText(s)
    case Arr(body) => SqlText(['['] + body)
    case Obj(body) => SqlText(['{'] + body)
  }

  /** SQLite's order across types: integers before text. */
  predicate SqlLess(a: Sql, b: Sql) {
    match (a, b)
    case (SqlInt(x), SqlInt(y)) => x < y
    case (SqlInt(_), SqlText(_)) => true
    case (SqlText(x), SqlText(y)) => Less(x, y)
    case _ => false
  }

  /** A comparison with NULL is never true. */
  predicate Compare(op: Op, a: Sql, b: Sql) {
    && !a.SqlNull? && !b.SqlNull?
    && match op
       case Eq => a == b
       case Ne => a != b
       case Lt => SqlLess(a, b)
       case Gt => SqlLess(b, a)
       case Le => a == b || SqlLess(a, b)
       case Ge => a == b || SqlLess(b, a)
       case _ => false
  }

  predicate Holds(c: Clause, row: Row) {
    var a := Extract(Field(row, c.col));
    match c.op
    case In => exists i :: 0 <= i < |c.values| && Compare(Eq, a, Extract(c.values[i]))
    case NotIn => forall i :: 0 <= i < |c.values| ==> Compare(Ne, a, Extract(c.values[i]))
    case _ => |c.values| == 1 && Compare(c.op, a, Extract(c.values[0]))
  }

  // ---- D12: the producer of a row that names none ------------------------------

  function Digit(d: int): char
    requires 0 <= d <= 9
  {
    ['0', '1', '2', '3', '4', '5', '6', '7', '8', '9'][d]
  }

  function Decimal(n: int): (s: string)
    ensures s != [] && (s[0] == '-' || '0' <= s[0] <= '9')
    decreases n < 0, if n < 0 then -n else n
  {
    if n < 0 then ['-'] + Decimal(-n)
    else if n < 10 then [Digit(n)]
    else Decimal(n / 10) + [Digit(n % 10)]
  }

  function TrimStart(s: string, space: set<char>): string {
    if s != [] && s[0] in space then TrimStart(s[1..], space) else s
  }

  function TrimEnd(s: string, space: set<char>): string {
    if s != [] && s[|s| - 1] in space then TrimEnd(s[..|s| - 1], space) else s
  }

  function Trim(s: string, space: set<char>): string {
    TrimEnd(TrimStart(s, space), space)
  }

  function LowerChar(c: char): char {
    if 'A' <= c <= 'Z' then (c as int + 32) as char else c
  }

  /** `str.lower`: beside ASCII letters, the Kelvin sign is the one character
      that lowers to a letter of "msk144". */
  function PyLowerChar(c: char): char {
    if c == '\U{212A}' then 'k' else LowerChar(c)
  }

  function Lower(s: string): (r: string)
    ensures |r| == |s| && forall i :: 0 <= i < |s| ==> r[i] == LowerChar(s[i])
  {
    if s == [] then [] else [LowerChar(s[0])] + Lower(s[1..])
  }

  function PyLower(s: string): (r: string)
    ensures |r| == |s| && forall i :: 0 <= i < |s| ==> r[i] == PyLowerChar(s[i])
  {
    if s == [] then [] else [PyLowerChar(s[0])] + PyLower(s[1..])
  }

  const SQL_SPACE: set<char> := {' '}

  /** The characters `str.strip` removes. */
  const PY_SPACE: set<char> :=
    {' ', '\t', '\n', '\U{0B}', '\U{0C}', '\r', '\U{1C}', '\U{1D}', '\U{1E}', '\U{1F}', '\U{85}', '\U{A0}',
     '\U{1680}', '\U{2000}', '\U{2001}', '\U{2002}', '\U{2003}', '\U{2004}', '\U{2005}', '\U{2006}', '\U{2007}',
     '\U{2008}', '\U{2009}', '\U{200A}', '\U{2028}', '\U{2029}', '\U{202F}', '\U{205F}', '\U{3000}'}

  /** The text `trim()` sees: NULL coalesces to '', a number prints. */
  function SqlModeText(v: Sql): string {
    match v
    case SqlNull => ""
    case SqlInt(n) => Decimal(n)
    case SqlText(s) => s
  }

  /** D12 as the SQL scope computes it. */
  predicate SqlIsMsk144(row: Row) {
    Lower(Trim(SqlModeText(Extract(Field(row, "mode"))), SQL_SPACE)) == MSK144
  }

  /** D12 as the writer's `infer_producer` computes it for a `psk` row. */
  function InferPskProducer(row: Row): string {
    var mode := Field(row, "mode");
    if mode.Text? && PyLower(Trim(mode.s, PY_SPACE)) == MSK144 then METEOR else PSK
  }

  predicate AsciiSpaced(s: string) {
    forall i :: 0 <= i < |s| ==> s[i] == ' ' || 'a' <= s[i] <= 'z' || 'A' <= s[i] <= 'Z' || '0' <= s[i] <= '9'
  }

  lemma {:induction false} TrimNothing(s: string, space: set<char>)
    requires s != [] && s[0] !in space && s[|s| - 1] !in space
    ensures Trim(s, space) == s
  {
  }

  lemma {:induction false} TrimStartParts(s: string, space: set<char>) returns (k: nat)
    ensures k <= |s| && TrimStart(s, space) == s[k..]
    ensures forall i :: 0 <= i < k ==> s[i] in space
    ensures k < |s| ==> s[k] !in space
  {
    k := 0;
    if s != [] && s[0] in space {
      var j := TrimStartParts(s[1..], space);
      k := j + 1;
      assert forall i :: 0 < i < k ==> s[i] == s[1..][i - 1];
    }
  }

  lemma {:induction false} TrimEndParts(s: string, space: set<char>) returns (k: nat)
    ensures k <= |s| && TrimEnd(s, space) == s[..k]
    ensures forall i :: k <= i < |s| ==> s[i] in space
    ensures 0 < k ==> s[k - 1] !in space
  {
    k := |s|;
    if s != [] && s[|s| - 1] in space {
      k := TrimEndParts(s[..|s| - 1], space);
      assert s[..|s| - 1][..k] == s[..k];
    }
  }

  /** Trimming keeps the middle: everything cut is space, nothing at the ends of the rest is. */
  lemma {:induction false} TrimParts(s: string, space: set<char>) returns (a: nat, b: nat)
    ensures a <= b <= |s| && Trim(s, space) == s[a..b]
    ensures forall i :: 0 <= i < |s| && !(a <= i < b) ==> s[i] in space
    ensures a < b ==> s[a] !in space && s[b - 1] !in space
  {
    a := TrimStartParts(s, space);
    var k := TrimEndParts(s[a..], space);
    b := a + k;
    forall i | b <= i < |s| ensures s[i] in space {
      assert s[a..][i - a] == s[i];
    }
    if a < b {
      assert s[a..][k - 1] == s[b - 1];
    }
  }

  lemma {:induction false} TrimStartTo(s: string, space: set<char>, a: nat)
    requires a < |s| && s[a] !in space && forall i :: 0 <= i < a ==> s[i] in space
    ensures TrimStart(s, space) == s[a..]
  {
    if a > 0 {
      assert forall i :: 0 <= i < a - 1 ==> s[1..][i] == s[i + 1];
      TrimStartTo(s[1..], space, a - 1);
    }
  }

  lemma {:induction false} TrimEndTo(s: string, space: set<char>, b: nat)
    requires 0 < b <= |s| && s[b - 1] !in space && forall i :: b <= i < |s| ==> s[i] in space
    ensures TrimEnd(s, space) == s[..b]
  {
    if b < |s| {
      assert s[..|s| - 1][..b] == s[..b];
      TrimEndTo(s[..|s| - 1], space, b);
    }
  }

  /** `Trim` is determined by where the non-space middle lies. */
  lemma TrimTo(s: string, space: set<char>, a: nat, b: nat)
    requires a < b <= |s| && s[a] !in space && s[b - 1] !in space
    requires forall i :: 0 <= i < |s| && !(a <= i < b) ==> s[i] in space
    ensures Trim(s, space) == s[a..b]
  {
    TrimStartTo(s, space, a);
    assert s[a..][b - a - 1] == s[b - 1];
    forall i | b - a <= i < |s[a..]| ensures s[a..][i] in space {
      assert s[a..][i] == s[a + i];
    }
    TrimEndTo(s[a..], space, b - a);
    assert s[a..][..b - a] == s[a..b];
  }

  /** Nothing but a string names MSK144 to either side. */
  lemma OnlyTextNamesMsk144(row: Row)
    requires !Field(row, "mode").Text?
    ensures !SqlIsMsk144(row)
  {
    var s := SqlModeText(Extract(Field(row, "mode")));
    var a, b := TrimParts(s, SQL_SPACE);
    if a < b {
      assert a == 0;
      assert Lower(s[a..b])[0] != MSK144[0];
    }
  }

  predicate AsciiWord(c: char) {
    'a' <= c <= 'z' || 'A' <= c <= 'Z' || '0' <= c <= '9'
  }

  /** What lowers to MSK144 in ASCII is six letters and digits. */
  lemma WordLowers(m: string)
    requires Lower(m) == MSK144
    ensures PyLower(m) == MSK144 && |m| == 6 && forall i :: 0 <= i < 6 ==> AsciiWord(m[i])
  {
    hide Lower, PyLower;
    assert |MSK144| == 6;
    forall i | 0 <= i < 6 ensures AsciiWord(m[i]) && PyLowerChar(m[i]) == MSK144[i] {
      assert LowerChar(m[i]) == MSK144[i];
    }
    assert PyLower(m) == MSK144;
  }

  lemma WordsLowerAlike(m: string)
    requires forall i :: 0 <= i < |m| ==> m[i] == ' ' || AsciiWord(m[i])
    ensures PyLower(m) == Lower(m)
  {
    hide Lower, PyLower;
    assert forall i :: 0 <= i < |m| ==> PyLower(m)[i] == Lower(m)[i];
  }

  /** No word character is white space to either side; a space is to both. */
  lemma WordsAreNotSpace(c: char)
    ensures AsciiWord(c) ==> c !in SQL_SPACE && c !in PY_SPACE
    ensures ' ' in SQL_SPACE && ' ' in PY_SPACE
    ensures c in SQL_SPACE <==> c == ' '
    ensures c == ' ' || AsciiWord(c) ==> (c in PY_SPACE <==> c == ' ')
  {
  }

  lemma SqlMatchIsPyMatch(s: string)
    requires Lower(Trim(s, SQL_SPACE)) == MSK144
    ensures PyLower(Trim(s, PY_SPACE)) == MSK144
    ensures AsciiSpaced(s)
  {
    hide Trim, Lower, PyLower, AsciiWord, SQL_SPACE, PY_SPACE, MSK144;
    var a, b := TrimParts(s, SQL_SPACE);
    var m := s[a..b];
    WordLowers(m);
    forall i | 0 <= i < |s| ensures (if a <= i < b then AsciiWord(s[i]) else s[i] == ' ' && s[i] in PY_SPACE) {
      if a <= i < b { assert s[i] == m[i - a]; }
      WordsAreNotSpace(s[i]);
    }
    WordsAreNotSpace(s[a]);
    WordsAreNotSpace(s[b - 1]);
    TrimTo(s, PY_SPACE, a, b);
    Spaced(s, a, b);
  }

  lemma Spaced(s: string, a: nat, b: nat)
    requires a <= b <= |s| && forall i :: 0 <= i < |s| ==> if a <= i < b then AsciiWord(s[i]) else s[i] == ' '
    ensures AsciiSpaced(s)
  {
  }

  lemma PyMatchIsSqlMatch(s: string)
    requires PyLower(Trim(s, PY_SPACE)) == MSK144 && AsciiSpaced(s)
    ensures Lower(Trim(s, SQL_SPACE)) == MSK144
  {
    SpacedWords(s);
    assert |MSK144| == 6;
    hide Trim, Lower, PyLower, AsciiWord, AsciiSpaced, SQL_SPACE, PY_SPACE, MSK144;
    var a, b := TrimParts(s, PY_SPACE);
    var m := s[a..b];
    assert |PyLower(m)| == |m|;
    WordsLowerAlike(m);
    forall i | 0 <= i < |s| && !(a <= i < b) ensures s[i] in SQL_SPACE { WordsAreNotSpace(s[i]); }
    WordsAreNotSpace(s[a]);
    WordsAreNotSpace(s[b - 1]);
    TrimTo(s, SQL_SPACE, a, b);
  }

  lemma SpacedWords(s: string)
    requires AsciiSpaced(s)
    ensures forall i :: 0 <= i < |s| ==> s[i] == ' ' || AsciiWord(s[i])
  {
  }

  /** The SQL scope puts a row that names no producer where `infer_producer`
      puts it, exactly when Python reads no MSK144 in it or the mode is spelled
      with ASCII letters, digits and spaces only. */
  lemma ScopeAgreesWithWriterIff(row: Row)
    ensures (SqlIsMsk144(row) <==> InferPskProducer(row) == METEOR) <==>
            (InferPskProducer(row) == PSK || AsciiSpaced(Field(row, "mode").s))
  {
    var mode := Field(row, "mode");
    if mode.Text? {
      if SqlIsMsk144(row) {
        SqlMatchIsPyMatch(mode.s);
      } else if InferPskProducer(row) == METEOR && AsciiSpaced(mode.s) {
        PyMatchIsSqlMatch(mode.s);
      }
    } else {
      OnlyTextNamesMsk144(row);
    }
  }

  lemma MskIsLower()
    ensures Lower(MSK144) == MSK144
  {
    hide Lower;
    assert forall i :: 0 <= i < |MSK144| ==> Lower(MSK144)[i] == MSK144[i];
  }

  /** One mode on which they part: a tab, which `strip` removes and `trim` keeps. */
  lemma TabbedModeParts(row: Row)
    requires Field(row, "mode") == Text("msk144\t")
    ensures InferPskProducer(row) == METEOR && !SqlIsMsk144(row)
  {
    hide Trim, Lower, PyLower;
    var s := MSK144 + ['\t'];
    assert s == "msk144\t";
    TrimTo(s, PY_SPACE, 0, 6);
    assert s[0..6] == MSK144;
    WordsLowerAlike(MSK144);
    MskIsLower();
    TrimNothing(s, SQL_SPACE);
    assert |Lower(s)| == 7 && |MSK144| == 6;
  }
}
