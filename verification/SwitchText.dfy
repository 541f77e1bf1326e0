/** `dumps_toml` (sinkswitch.py): the text it prints for a tree, and what a TOML
    reader makes of that text. */
module SwitchText {
  import opened Cursors
  import S = Sink
  import T = Toml
  import opened TomlText
  import opened SwitchTree

  // ---- printing ------------------------------------------------------------------

  predicate AllBare(k: string) {
    forall i :: 0 <= i < |k| ==> IsBare(k[i])
  }

  /** A key `$` lets through although a newline ends it. */
  predicate EndsInNewline(k: string) {
    |k| > 1 && k[|k| - 1] == '\n' && AllBare(k[..|k| - 1])
  }

  /** `_BARE_KEY.match`: `$` also matches before a newline at the end. */
  predicate BareMatch(k: string) {
    (k != [] && AllBare(k)) || EndsInNewline(k)
  }

  function HexDigit(n: nat): char
    requires n < 16
  {
    if n < 10 then (n + '0' as int) as char else (n - 10 + 'a' as int) as char
  }

  /** One character inside a basic string. */
  function Esc(c: char): string {
    if c == '\\' then "\\\\"
    else if c == '"' then "\\\""
    else if c == '\U{0008}' then "\\b"
    else if c == '\t' then "\\t"
    else if c == '\n' then "\\n"
    else if c == '\U{000C}' then "\\f"
    else if c == '\r' then "\\r"
    else if c < ' ' || c == '\U{007F}' then "\\u00" + [HexDigit(c as int / 16), HexDigit(c as int % 16)]
    else [c]
  }

  function Escaped(s: string): string {
    if s == [] then [] else Esc(s[0]) + Escaped(s[1..])
  }

  function Quoted(s: string): string {
    "\"" + Escaped(s) + "\""
  }

  lemma {:induction false} EscapedMore(s: string, c: char)
    ensures Escaped(s + [c]) == Escaped(s) + Esc(c)
  {
    hide Esc;
    if s == [] {
      assert [] + [c] == [c] && [c][1..] == [];
    } else {
      EscapedMore(s[1..], c);
      assert (s + [c])[1..] == s[1..] + [c];
      assert Esc(s[0]) + (Escaped(s[1..]) + Esc(c)) == Esc(s[0]) + Escaped(s[1..]) + Esc(c);
    }
  }

  lemma Upto(v: string, i: nat)
    requires i < |v|
    ensures v[..i + 1] == v[..i] + [v[i]]
  {
  }

  /** `_str`. */
  method QuoteString(v: string) returns (out: string)
    ensures out == Quoted(v)
  {
    out := "\"";
    assert v[..0] == [] && "\"" + Escaped([]) == "\"";
    assert Quoted(v) == "\"" + Escaped(v) + "\"";
    hide *;
    for i := 0 to |v|
      invariant out == "\"" + Escaped(v[..i])
    {
      Upto(v, i);
      EscapedMore(v[..i], v[i]);
      Cat("\"", Escaped(v[..i]), Esc(v[i]));
      out := out + Esc(v[i]);
    }
    assert v[..|v|] == v;
    out := out + "\"";
  }

  function Key(k: string): string {
    if BareMatch(k) then k else Quoted(k)
  }

  function ScalarText(v: T.Scalar): string {
    match v
    case Text(s) => Quoted(s)
    case Boolean(b) => if b then "true" else "false"
    case Integer(n) => S.Decimal(n)
    case EmptyArray => "[]"
  }

  /** `".".join`. */
  function Dotted(keys: seq<string>): string {
    if keys == [] then []
    else if |keys| == 1 then keys[0]
    else keys[0] + "." + Dotted(keys[1..])
  }

  function Keys(path: seq<string>): seq<string> {
    seq(|path|, i requires 0 <= i < |path| => Key(path[i]))
  }

  function LineOf(s: T.Stmt): string {
    match s
    case KeyValue(k, v) => Key(k) + " = " + ScalarText(v)
    case Header(path) => "[" + Dotted(Keys(path)) + "]"
    case ArrayHeader(path) => "[[" + Dotted(Keys(path)) + "]]"
  }

  /** A statement's lines: a header stands after an empty one. */
  function LinesOf(ss: seq<T.Stmt>): seq<string> {
    if ss == [] then []
    else
      var s := ss[|ss| - 1];
      LinesOf(ss[..|ss| - 1]) + if s.KeyValue? then [LineOf(s)] else [[], LineOf(s)]
  }

  function Join(lines: seq<string>): string {
    if lines == [] then []
    else if |lines| == 1 then lines[0]
    else lines[0] + "\n" + Join(lines[1..])
  }

  function StripNewlines(s: string): string {
    if s != [] && s[0] == '\n' then StripNewlines(s[1..]) else s
  }

  /** What `dumps_toml` returns, when it does not raise. */
  function Dumps(es: seq<Entry>): string {
    StripNewlines(Join(LinesOf(Stmts(es, [])))) + "\n"
  }

  lemma Cat(a: string, b: string, c: string)
    ensures a + b + c == a + (b + c)
  {
  }

  // ---- reading strings and keys back ----------------------------------------------------

  lemma HexReads(c: char)
    requires c < '\U{0080}'
    ensures HexNumber(['0', '0', HexDigit(c as int / 16), HexDigit(c as int % 16)]) == Some(c as int)
  {
    var s := ['0', '0', HexDigit(c as int / 16), HexDigit(c as int % 16)];
    assert s[..3][..2] == s[..2] && s[..2][..1] == s[..1] && s[..1][..0] == [];
    assert HexNumber(s[..1]) == Some(0);
    assert HexNumber(s[..2]) == Some(0);
    assert HexNumber(s[..3]) == Some(c as int / 16);
  }

  lemma CodeReads(c: char, after: string)
    requires c < '\U{0080}'
    ensures ReadEscape(['u', '0', '0', HexDigit(c as int / 16), HexDigit(c as int % 16)] + after) == Some((c, 5))
  {
    HexReads(c);
    var digits := ['0', '0', HexDigit(c as int / 16), HexDigit(c as int % 16)];
    var s := ['u', '0', '0', HexDigit(c as int / 16), HexDigit(c as int % 16)] + after;
    assert s[1..5] == digits;
    hide HexNumber, HexDigit;
  }

  lemma EscapeStep(s: string, c: char, taken: nat)
    requires s != "" && s[0] == '\\' && ReadEscape(s[1..]) == Some((c, taken)) && taken <= |s| - 1
    ensures ReadString(s[1 + taken..]).Some? ==>
      ReadString(s) == Some(Parsed([c] + ReadString(s[1 + taken..]).value.got, ReadString(s[1 + taken..]).value.rest))
  {
    hide ReadEscape;
  }

  lemma EscapeReads(c: char, body: string, after: string)
    requires ReadEscape(body + after) == Some((c, |body|))
    ensures ReadString(after).Some? ==>
      ReadString(['\\'] + body + after) == Some(Parsed([c] + ReadString(after).value.got, ReadString(after).value.rest))
  {
    hide *;
    var s := ['\\'] + body + after;
    assert s[1..] == body + after && s[1 + |body|..] == after;
    EscapeStep(s, c, |body|);
  }

  /** One escaped character reads back. */
  lemma EscReads(c: char, after: string)
    ensures ReadString(after).Some? ==>
      ReadString(Esc(c) + after) == Some(Parsed([c] + ReadString(after).value.got, ReadString(after).value.rest))
  {
    if Esc(c) == [c] && c != '\\' && c != '"' {
      assert (Esc(c) + after)[1..] == after;
    } else if |Esc(c)| == 2 {
      assert Esc(c) == ['\\'] + [Esc(c)[1]];
      EscapeReads(c, [Esc(c)[1]], after);
    } else {
      CodeReads(c, after);
      var body := ['u', '0', '0', HexDigit(c as int / 16), HexDigit(c as int % 16)];
      assert Esc(c) == ['\\'] + body;
      EscapeReads(c, body, after);
    }
  }

  lemma EscapedFirst(s: string, rest: string)
    requires s != []
    ensures Escaped(s) + "\"" + rest == Esc(s[0]) + (Escaped(s[1..]) + "\"" + rest) && s == [s[0]] + s[1..]
  {
    hide Esc;
    Cat(Esc(s[0]), Escaped(s[1..]), "\"");
    Cat(Esc(s[0]), Escaped(s[1..]) + "\"", rest);
  }

  lemma {:induction false} StringReads(s: string, rest: string)
    ensures ReadString(Escaped(s) + "\"" + rest) == Some(Parsed(s, rest))
  {
    if s == [] {
      assert Escaped(s) + "\"" + rest == ['"'] + rest;
    } else {
      hide *;
      EscapedFirst(s, rest);
      StringReads(s[1..], rest);
      EscReads(s[0], Escaped(s[1..]) + "\"" + rest);
    }
  }

  predicate Stops(rest: string) {
    rest == [] || !IsBare(rest[0])
  }

  lemma {:induction false} BareReads(k: string, rest: string)
    requires AllBare(k) && Stops(rest)
    ensures ReadBare(k + rest) == Parsed(k, rest)
  {
    if k == [] {
      assert k + rest == rest;
    } else {
      assert (k + rest)[1..] == k[1..] + rest;
      BareReads(k[1..], rest);
      assert k == [k[0]] + k[1..];
    }
  }

  /** A key of a readable document. */
  predicate GoodKey(k: string) {
    k != "" && !EndsInNewline(k)
  }

  lemma KeyReads(k: string, rest: string)
    requires GoodKey(k) && Stops(rest)
    ensures ReadKey(Key(k) + rest) == Some(Parsed(k, rest))
  {
    if BareMatch(k) {
      BareKeyReads(k, rest);
    } else {
      QuotedKeyReads(k, rest);
    }
  }

  lemma BareKeyReads(k: string, rest: string)
    requires k != "" && AllBare(k) && Stops(rest)
    ensures ReadKey(k + rest) == Some(Parsed(k, rest))
  {
    assert (k + rest)[0] == k[0] && IsBare(k[0]);
    BareReads(k, rest);
  }

  lemma QuotedKeyReads(k: string, rest: string)
    ensures ReadKey(Quoted(k) + rest) == Some(Parsed(k, rest))
  {
    StringReads(k, rest);
    hide Escaped, ReadString;
    Cat("\"", Escaped(k), "\"");
    Cat("\"", Escaped(k) + "\"", rest);
    assert ("\"" + (Escaped(k) + "\"" + rest))[1..] == Escaped(k) + "\"" + rest;
  }

  // ---- reading headers back ---------------------------------------------------------------

  predicate GoodPath(path: seq<string>) {
    path != [] && forall i :: 0 <= i < |path| ==> GoodKey(path[i])
  }

  /** A header's path ends at a bracket, or at the end of the line. */
  predicate EndsPath(rest: string) {
    rest == [] || rest[0] == ']'
  }

  lemma KeyStarts(k: string)
    requires k != ""
    ensures Key(k) != "" && (IsBare(Key(k)[0]) || Key(k)[0] == '"')
  {
    hide Escaped;
  }

  lemma DottedStarts(path: seq<string>)
    requires path != [] && path[0] != ""
    ensures Dotted(Keys(path)) != "" && Dotted(Keys(path))[0] == Key(path[0])[0]
  {
    hide Key;
    KeyStarts(path[0]);
    assert Keys(path)[0] == Key(path[0]);
  }

  lemma DottedMore(path: seq<string>)
    requires |path| > 1
    ensures Dotted(Keys(path)) == Key(path[0]) + "." + Dotted(Keys(path[1..]))
  {
    hide Key;
    assert Keys(path)[1..] == Keys(path[1..]);
  }

  lemma {:induction false} PathReads(path: seq<string>, rest: string)
    requires GoodPath(path) && EndsPath(rest)
    ensures ReadPath(Dotted(Keys(path)) + rest) == Some(Parsed(path, rest))
    decreases |path|
  {
    var k := path[0];
    assert GoodKey(k);
    if |path| == 1 {
      KeyReads(k, rest);
      assert Dotted(Keys(path)) == Key(k) && path == [k];
    } else {
      var tail := Dotted(Keys(path[1..])) + rest;
      PathReads(path[1..], rest);
      KeyReads(k, "." + tail);
      DottedMore(path);
      DottedStarts(path[1..]);
      KeyStarts(path[1]);
      OnePathStep(k, path, tail, rest);
    }
  }

  lemma OnePathStep(k: string, path: seq<string>, tail: string, rest: string)
    requires |path| > 1 && path[0] == k && tail != [] && tail[0] != ' ' && tail[0] != '\t'
    requires ReadKey(Key(k) + ("." + tail)) == Some(Parsed(k, "." + tail)) && ReadPath(tail) == Some(Parsed(path[1..], rest))
    requires Dotted(Keys(path)) + rest == Key(k) + "." + Dotted(Keys(path[1..])) + rest && tail == Dotted(Keys(path[1..])) + rest
    ensures ReadPath(Dotted(Keys(path)) + rest) == Some(Parsed(path, rest))
  {
    hide Key, Keys, Dotted, ReadKey;
    Cat(Key(k), ".", Dotted(Keys(path[1..])));
    Cat(Key(k), "." + Dotted(Keys(path[1..])), rest);
    Cat(".", Dotted(Keys(path[1..])), rest);
    assert ("." + tail)[1..] == tail && SkipSpace("." + tail) == "." + tail;
    assert path == [k] + path[1..];
  }

  // ---- reading values back -----------------------------------------------------------------

  predicate AllDigits(s: string) {
    forall i :: 0 <= i < |s| ==> '0' <= s[i] <= '9'
  }

  lemma {:induction false} DigitsRead(s: string)
    requires AllDigits(s)
    ensures ReadDigits(s) == Parsed(s, "")
  {
    if s != [] {
      DigitsRead(s[1..]);
      assert s == [s[0]] + s[1..];
    }
  }

  lemma {:induction false} DecimalDigits(n: nat)
    ensures AllDigits(S.Decimal(n)) && DigitsValue(S.Decimal(n)) == n
    ensures n != 0 ==> S.Decimal(n)[0] != '0'
    ensures n == 0 ==> |S.Decimal(n)| == 1
    decreases n
  {
    if n < 10 {
      var s := S.Decimal(n);
      assert s[..0] == [];
    } else {
      DecimalDigits(n / 10);
      DigitsMore(S.Decimal(n / 10), S.Digit(n % 10));
      assert S.Decimal(n) == S.Decimal(n / 10) + [S.Digit(n % 10)];
    }
  }

  lemma DigitsMore(s: string, c: char)
    requires AllDigits(s) && '0' <= c <= '9'
    ensures AllDigits(s + [c]) && DigitsValue(s + [c]) == 10 * DigitsValue(s) + (c as int - '0' as int)
  {
    assert (s + [c])[..|s|] == s;
  }

  lemma IntegerReads(n: int)
    ensures ReadInteger(S.Decimal(n)) == Some(Parsed(n, ""))
  {
    var m: nat := if n < 0 then -n else n;
    DecimalDigits(m);
    DigitsRead(S.Decimal(m));
    DigitsAreDigits(S.Decimal(m));
    hide S.Decimal, DigitsValue, ReadDigits;
    DecimalSign(n);
    assert (['-'] + S.Decimal(m))[1..] == S.Decimal(m);
  }

  lemma DecimalSign(n: int)
    ensures n < 0 ==> S.Decimal(n) == ['-'] + S.Decimal(-n)
    ensures n >= 0 ==> '0' <= S.Decimal(n)[0] <= '9'
  {
    if n >= 0 { DecimalDigits(n); }
  }

  lemma NotBegins(s: string, p: string)
    requires s != "" && p != "" && s[0] != p[0]
    ensures !Begins(s, p)
  {
    if |p| <= |s| { assert s[..|p|][0] == s[0]; }
  }

  lemma BooleanReads(b: bool)
    ensures ReadValue(ScalarText(T.Boolean(b))) == Some(Parsed(T.Boolean(b), ""))
  {
    var s := if b then "true" else "false";
    if b {
      assert s[..4] == "true" && s[4..] == "";
    } else {
      NotBegins(s, "true");
      assert s[..5] == "false" && s[5..] == "";
    }
  }

  lemma ValueReads(v: T.Scalar)
    ensures ReadValue(ScalarText(v)) == Some(Parsed(v, ""))
    ensures ScalarText(v) != "" && ScalarText(v)[0] != ' ' && ScalarText(v)[0] != '\t'
  {
    hide ReadString, Escaped, ReadInteger, Begins, S.Decimal;
    match v
    case Text(s) =>
      StringReads(s, "");
      assert Quoted(s)[1..] == Escaped(s) + "\"" + "";
    case Integer(n) =>
      IntegerReads(n);
      DecimalSign(n);
      NotBegins(S.Decimal(n), "true");
      NotBegins(S.Decimal(n), "false");
    case EmptyArray =>
      var s := "[]";
      assert s[1..] == "]" && SkipSpace(s[1..]) == s[1..] && s[1..][1..] == "";
      NotBegins(s, "true");
      NotBegins(s, "false");
    case Boolean(b) =>
      BooleanReads(b);
  }

  // ---- reading lines back --------------------------------------------------------------------

  predicate GoodStmt(s: T.Stmt) {
    if s.KeyValue? then GoodKey(s.key) else GoodPath(s.path)
  }

  lemma NoSpaceFirst(s: string)
    requires s == "" || (s[0] != ' ' && s[0] != '\t')
    ensures SkipSpace(s) == s
  {
  }

  /** A key alone, up to a space before an equals sign. */
  lemma OneKeyPath(k: string, text: string)
    requires GoodKey(k)
    ensures ReadPath(Key(k) + (" = " + text)) == Some(Parsed([k], "= " + text))
  {
    KeyReads(k, " = " + text);
    hide Key, ReadKey;
    assert (" = " + text)[1..] == "= " + text && SkipSpace("= " + text) == "= " + text;
  }

  lemma AfterEquals(text: string)
    requires text != "" && text[0] != ' ' && text[0] != '\t'
    ensures SkipSpace("= " + text) == "= " + text && Begins("= " + text, "=") && SkipSpace(("= " + text)[1..]) == text
  {
    assert ("= " + text)[1..] == " " + text && (" " + text)[1..] == text;
  }

  lemma KeyValueReads(k: string, v: T.Scalar)
    requires GoodKey(k)
    ensures ReadLine(LineOf(T.KeyValue(k, v))) == Some(Some(T.KeyValue(k, v)))
  {
    var text := ScalarText(v);
    KeyStarts(k);
    OneKeyPath(k, text);
    ValueReads(v);
    AfterEquals(text);
    hide Key, ScalarText, ReadPath, ReadValue, Begins;
    Cat(Key(k), " = ", text);
    var line := Key(k) + (" = " + text);
    assert line[0] == Key(k)[0];
    NotBegins(line, "[[");
    NoSpaceFirst(line);
  }

  /** A header's line, and the path it names up to where it stops. */
  lemma HeaderReads(path: seq<string>, many: bool, close: string)
    requires GoodPath(path) && EndsPath(close)
    requires close in {"", "]", "]]"}
    ensures ReadLine((if many then "[[" else "[") + Dotted(Keys(path)) + close)
            == if close != (if many then "]]" else "]") then None
               else Some(Some(if many then T.ArrayHeader(path) else T.Header(path)))
  {
    var d := Dotted(Keys(path));
    PathReads(path, close);
    assert GoodKey(path[0]);
    DottedStarts(path);
    KeyStarts(path[0]);
    hide Dotted, Keys, Key, ReadPath, IsBare;
    var open := if many then "[[" else "[";
    Cat(open, d, close);
    var line := open + (d + close);
    NoSpaceFirst(d + close);
    if many {
      assert line[..2] == "[[" && line[2..] == d + close;
    } else {
      assert line[1] == d[0] && line[1..] == d + close;
      if |line| >= 2 { assert line[..2][1] == d[0]; }
    }
    CloseReads(close);
  }

  lemma CloseReads(close: string)
    requires close in {"", "]", "]]"}
    ensures SkipSpace(close) == close
    ensures Begins(close, "]]") <==> close == "]]"
    ensures Begins(close, "]") <==> close != ""
    ensures close == "]]" ==> OnlySpace(close[2..]) && !OnlySpace(close[1..])
    ensures close == "]" ==> OnlySpace(close[1..])
  {
  }

  lemma StmtReads(s: T.Stmt)
    requires GoodStmt(s)
    ensures ReadLine(LineOf(s)) == Some(Some(s))
  {
    match s
    case KeyValue(k, v) => KeyValueReads(k, v);
    case Header(path) => HeaderReads(path, false, "]");
    case ArrayHeader(path) => HeaderReads(path, true, "]]");
  }

  // ---- a line whose key ends in a newline ---------------------------------------------------------

  lemma BareEndReads(body: string)
    requires body != "" && AllBare(body)
    ensures ReadLine(body) == None
  {
    BareKeyReads(body, "");
    assert body + "" == body;
    hide ReadKey;
    NoSpaceFirst(body);
    NotBegins(body, "[[");
    assert ReadPath(body) == Some(Parsed([body], ""));
  }

  ghost predicate NoNewline(s: string) {
    forall i :: 0 <= i < |s| ==> s[i] != '\n'
  }

  lemma {:induction false} EscapedNoNewline(s: string)
    ensures NoNewline(Escaped(s))
  {
    if s != [] {
      EscapedNoNewline(s[1..]);
      EscNoNewline(s[0]);
      hide Esc;
    }
  }

  lemma EscNoNewline(c: char)
    ensures NoNewline(Esc(c))
  {
  }

  lemma KeyNoNewline(k: string)
    requires !EndsInNewline(k)
    ensures NoNewline(Key(k))
  {
    EscapedNoNewline(k);
    hide Escaped;
  }

  lemma {:induction false} DottedNoNewline(path: seq<string>)
    requires forall i :: 0 <= i < |path| ==> !EndsInNewline(path[i])
    ensures NoNewline(Dotted(Keys(path)))
    decreases |path|
  {
    if |path| == 1 {
      KeyNoNewline(path[0]);
    } else if |path| > 1 {
      KeyNoNewline(path[0]);
      DottedNoNewline(path[1..]);
      DottedMore(path);
      hide Key, Keys, Dotted;
    }
  }

  lemma {:induction false} DecimalNoNewline(n: int)
    ensures NoNewline(S.Decimal(n))
  {
    DecimalSign(n);
    DecimalDigits(if n < 0 then -n else n);
    hide S.Decimal;
  }

  lemma NoNewlineJoin(a: string, b: string)
    requires NoNewline(a) && NoNewline(b)
    ensures NoNewline(a + b)
  {
  }

  lemma ScalarNoNewline(v: T.Scalar)
    ensures NoNewline(ScalarText(v))
  {
    match v
    case Text(s) =>
      EscapedNoNewline(s);
      hide Escaped;
    case Integer(n) => DecimalNoNewline(n);
    case _ =>
  }

  lemma LineNoNewline(s: T.Stmt)
    requires GoodStmt(s)
    ensures NoNewline(LineOf(s))
  {
    hide NoNewline, Key, ScalarText, Dotted, Keys;
    Brackets();
    match s
    case KeyValue(k, v) =>
      KeyNoNewline(k);
      ScalarNoNewline(v);
      NoNewlineJoin(Key(k), " = ");
      NoNewlineJoin(Key(k) + " = ", ScalarText(v));
    case Header(path) =>
      GoodDotted(path);
      NoNewlineJoin("[", Dotted(Keys(path)));
      NoNewlineJoin("[" + Dotted(Keys(path)), "]");
    case ArrayHeader(path) =>
      GoodDotted(path);
      NoNewlineJoin("[[", Dotted(Keys(path)));
      NoNewlineJoin("[[" + Dotted(Keys(path)), "]]");
  }

  lemma Brackets()
    ensures NoNewline("[") && NoNewline("]") && NoNewline("[[") && NoNewline("]]") && NoNewline(" = ")
  {
  }

  lemma GoodDotted(path: seq<string>)
    requires GoodPath(path)
    ensures NoNewline(Dotted(Keys(path)))
  {
    forall i | 0 <= i < |path| ensures !EndsInNewline(path[i]) { assert GoodKey(path[i]); }
    DottedNoNewline(path);
  }

  /** The first bad key of a header cuts its line before the bracket. */
  lemma BadHeaderCut(path: seq<string>, j: nat, many: bool, close: string) returns (front: string, rest: string)
    requires j < |path| && EndsInNewline(path[j]) && (forall i :: 0 <= i < j ==> GoodKey(path[i]))
    ensures (if many then "[[" else "[") + Dotted(Keys(path)) + close == front + "\n" + rest
    ensures NoNewline(front) && ReadLine(front) == None
  {
    var good := path[..j] + [path[j][..|path[j]| - 1]];
    GoodCut(path, j);
    hide *;
    var open := if many then "[[" else "[";
    var d := Dotted(Keys(good));
    var after := DottedCut(path, j);
    HeaderReads(good, many, "");
    GoodDotted(good);
    Brackets();
    NoNewlineJoin(open, d);
    front, rest := open + d, after + close;
    assert open + d + "" == open + d;
    Glue(open, d, after, close);
  }

  lemma Glue(open: string, d: string, after: string, close: string)
    ensures open + (d + "\n" + after) + close == open + d + "\n" + (after + close)
  {
  }

  lemma GoodCut(path: seq<string>, j: nat)
    requires j < |path| && EndsInNewline(path[j]) && (forall i :: 0 <= i < j ==> GoodKey(path[i]))
    ensures GoodPath(path[..j] + [path[j][..|path[j]| - 1]]) && EndsPath("")
  {
    var body := path[j][..|path[j]| - 1];
    assert body != "" && AllBare(body);
    assert !EndsInNewline(body) by { assert !IsBare('\n'); }
    hide EndsInNewline, AllBare;
  }

  lemma FirstCut(path: seq<string>) returns (after: string)
    requires path != [] && EndsInNewline(path[0])
    ensures Dotted(Keys(path)) == path[0][..|path[0]| - 1] + "\n" + after
  {
    var body := path[0][..|path[0]| - 1];
    assert path[0] == body + "\n" && Key(path[0]) == path[0];
    hide BareMatch, EndsInNewline, Key;
    if |path| == 1 {
      after := "";
      assert Keys(path) == [Key(path[0])];
    } else {
      DottedMore(path);
      after := "." + Dotted(Keys(path[1..]));
      Cat(path[0], ".", Dotted(Keys(path[1..])));
    }
  }

  lemma NoMore(a: string, b: string)
    ensures a + "" == a && b + "" == b
  {
  }

  lemma SliceCut(path: seq<string>, j: nat, body: string)
    requires 0 < j < |path|
    ensures var good := path[..j] + [body];
      good[0] == path[0] && good[1..] == path[1..][..j - 1] + [body] && |good| > 1 && path[1..][j - 1] == path[j]
  {
  }

  lemma BareAlone(body: string)
    requires body != "" && AllBare(body)
    ensures Dotted(Keys([body])) == body
  {
    assert Key(body) == body;
    hide Key, AllBare;
    assert Keys([body]) == [body];
  }

  lemma {:induction false} DottedCut(path: seq<string>, j: nat) returns (after: string)
    requires j < |path| && EndsInNewline(path[j])
    ensures Dotted(Keys(path)) == Dotted(Keys(path[..j] + [path[j][..|path[j]| - 1]])) + "\n" + after
    decreases j
  {
    var body := path[j][..|path[j]| - 1];
    var good := path[..j] + [body];
    assert body != "" && AllBare(body);
    hide *;
    if j == 0 {
      after := FirstCut(path);
      assert good == [body];
      BareAlone(body);
    } else {
      after := DottedCut(path[1..], j - 1);
      SliceCut(path, j, body);
      DottedMore(path);
      DottedMore(good);
      Glue(Key(path[0]) + ".", Dotted(Keys(good[1..])), after, "");
      NoMore(Key(path[0]) + "." + (Dotted(Keys(good[1..])) + "\n" + after), after);
    }
  }

  /** ... and a bad key of its own line. */
  lemma BadLineCut(s: T.Stmt) returns (front: string, rest: string)
    requires !GoodStmt(s) && (s.KeyValue? ==> s.key != "")
    requires !s.KeyValue? ==> s.path != [] && forall i :: 0 <= i < |s.path| ==> s.path[i] != ""
    ensures LineOf(s) == front + "\n" + rest && NoNewline(front) && ReadLine(front) == None
  {
    match s
    case KeyValue(k, v) =>
      front := k[..|k| - 1];
      rest := " = " + ScalarText(v);
      assert k == front + "\n";
      hide ScalarText;
      BareEndReads(front);
    case Header(path) =>
      var j := FirstBad(path);
      front, rest := BadHeaderCut(path, j, false, "]");
    case ArrayHeader(path) =>
      var j := FirstBad(path);
      front, rest := BadHeaderCut(path, j, true, "]]");
  }

  lemma FirstBad(path: seq<string>) returns (j: nat)
    requires path != [] && !GoodPath(path)
    ensures j < |path| && !GoodKey(path[j]) && forall i :: 0 <= i < j ==> GoodKey(path[i])
  {
    j := 0;
    while j < |path| && GoodKey(path[j])
      invariant j <= |path| && forall i :: 0 <= i < j ==> GoodKey(path[i])
    {
      j := j + 1;
    }
  }

  // ---- the whole text -----------------------------------------------------------------------

  lemma SplitStep(c: char, x: seq<string>, y: seq<string>)
    requires x != []
    ensures (if c == '\n' then [[]] + (x + y) else [[c] + (x + y)[0]] + (x + y)[1..])
            == (if c == '\n' then [[]] + x else [[c] + x[0]] + x[1..]) + y
  {
    assert (x + y)[1..] == x[1..] + y;
  }

  lemma SplitAtFirst(b: string)
    ensures SplitLines("" + "\n" + b) == SplitLines("") + SplitLines(b)
  {
    assert "" + "\n" + b == ['\n'] + b;
    SplitFirst('\n', b);
    assert SplitLines("") == [[]];
  }

  lemma FirstOff(a: string, b: string)
    requires a != ""
    ensures a == [a[0]] + a[1..] && a + "\n" + b == [a[0]] + (a[1..] + "\n" + b)
  {
  }

  lemma {:induction false} SplitAtNewline(a: string, b: string)
    ensures SplitLines(a + "\n" + b) == SplitLines(a) + SplitLines(b)
  {
    hide *;
    if a == "" {
      SplitAtFirst(b);
    } else {
      SplitAtNewline(a[1..], b);
      FirstOff(a, b);
      SplitFirst(a[0], a[1..]);
      SplitFirst(a[0], a[1..] + "\n" + b);
      SplitStep(a[0], SplitLines(a[1..]), SplitLines(b));
    }
  }

  lemma SplitFirst(c: char, s: string)
    ensures SplitLines([c] + s)
            == if c == '\n' then [[]] + SplitLines(s) else [[c] + SplitLines(s)[0]] + SplitLines(s)[1..]
  {
    assert ([c] + s)[1..] == s;
  }

  lemma {:induction false} SplitNothing(a: string)
    requires NoNewline(a)
    ensures SplitLines(a) == [a]
  {
    if a != "" {
      SplitNothing(a[1..]);
      assert [a[0]] + a[1..] == a;
    }
  }

  function Both(x: Option<seq<T.Stmt>>, y: Option<seq<T.Stmt>>): Option<seq<T.Stmt>> {
    if x.None? || y.None? then None else Some(x.value + y.value)
  }

  lemma BothLaws(x: Option<seq<T.Stmt>>, y: Option<seq<T.Stmt>>, z: Option<seq<T.Stmt>>)
    ensures Both(Some([]), x) == x && Both(x, Some([])) == x && Both(Both(x, y), z) == Both(x, Both(y, z))
  {
    if x.Some? { assert [] + x.value == x.value && x.value + [] == x.value; }
    if x.Some? && y.Some? && z.Some? { assert x.value + y.value + z.value == x.value + (y.value + z.value); }
  }

  /** What one line adds. */
  function OneLine(line: string): Option<seq<T.Stmt>> {
    match ReadLine(line)
    case None => None
    case Some(s) => Some(if s.Some? then [s.value] else [])
  }

  lemma ReadStep(line: string, lines: seq<string>)
    ensures ReadLines([line] + lines) == Both(OneLine(line), ReadLines(lines))
  {
    hide ReadLine;
    assert ([line] + lines)[1..] == lines;
  }

  lemma ReadOne(line: string)
    ensures ReadLines([line]) == OneLine(line)
  {
    ReadStep(line, []);
    assert [line] + [] == [line];
    BothLaws(OneLine(line), None, None);
  }

  lemma {:induction false} ReadConcat(a: seq<string>, b: seq<string>)
    ensures ReadLines(a + b) == Both(ReadLines(a), ReadLines(b))
  {
    if a == [] {
      assert a + b == b;
      BothLaws(ReadLines(b), None, None);
    } else {
      hide *;
      assert a + b == [a[0]] + (a[1..] + b) && a == [a[0]] + a[1..];
      ReadStep(a[0], a[1..] + b);
      ReadStep(a[0], a[1..]);
      ReadConcat(a[1..], b);
      BothLaws(OneLine(a[0]), ReadLines(a[1..]), ReadLines(b));
    }
  }

  /** The lines, each read alone: a bad one is split where its key breaks. */
  function ReadEach(lines: seq<string>): Option<seq<T.Stmt>> {
    if lines == [] then Some([]) else Both(ReadLines(SplitLines(lines[0])), ReadEach(lines[1..]))
  }

  lemma BlankReads()
    ensures ReadLines([[]]) == Some([]) && SplitLines("") == [[]]
  {
    assert ReadLine([]) == Some(None);
    ReadOne([]);
  }

  lemma {:induction false} JoinedReads(lines: seq<string>)
    ensures ReadLines(SplitLines(Join(lines) + "\n")) == ReadEach(lines)
    decreases |lines|
  {
    BlankReads();
    hide ReadLine, ReadLines, SplitLines, Both;
    if lines == [] {
      SplitAtNewline("", "");
      ReadConcat([[]], [[]]);
      assert "" + "\n" + "" == "" + "\n";
      BothLaws(Some([]), None, None);
    } else if |lines| == 1 {
      SplitAtNewline(lines[0], "");
      ReadConcat(SplitLines(lines[0]), [[]]);
      assert lines[0] + "\n" + "" == lines[0] + "\n" && ReadEach(lines[1..]) == Some([]);
    } else {
      var tail := Join(lines[1..]) + "\n";
      JoinedReads(lines[1..]);
      Cat(lines[0] + "\n", Join(lines[1..]), "\n");
      SplitAtNewline(lines[0], tail);
      ReadConcat(SplitLines(lines[0]), SplitLines(tail));
    }
  }

  lemma {:induction false} EachConcat(a: seq<string>, b: seq<string>)
    ensures ReadEach(a + b) == Both(ReadEach(a), ReadEach(b))
  {
    hide ReadLines, SplitLines, Both;
    if a == [] {
      assert a + b == b;
      BothLaws(ReadEach(b), None, None);
    } else {
      assert (a + b)[1..] == a[1..] + b && (a + b)[0] == a[0];
      EachConcat(a[1..], b);
      BothLaws(ReadLines(SplitLines(a[0])), ReadEach(a[1..]), ReadEach(b));
    }
  }

  /** Statements the printer may emit: no empty key. */
  predicate KeyedStmt(s: T.Stmt) {
    if s.KeyValue? then s.key != "" else s.path != [] && forall i :: 0 <= i < |s.path| ==> s.path[i] != ""
  }

  lemma LineReadsIff(s: T.Stmt)
    requires KeyedStmt(s)
    ensures ReadLines(SplitLines(LineOf(s))) == if GoodStmt(s) then Some([s]) else None
  {
    hide ReadLine, LineOf, ReadLines, SplitLines;
    if GoodStmt(s) {
      StmtReads(s);
      LineNoNewline(s);
      SplitNothing(LineOf(s));
      ReadOne(LineOf(s));
    } else {
      var front, rest := BadLineCut(s);
      SplitAtNewline(front, rest);
      SplitNothing(front);
      ReadOne(front);
      ReadConcat([front], SplitLines(rest));
    }
  }

  ghost predicate AllGood(ss: seq<T.Stmt>) {
    forall i :: 0 <= i < |ss| ==> GoodStmt(ss[i])
  }

  function StmtLines(s: T.Stmt): seq<string> {
    if s.KeyValue? then [LineOf(s)] else [[], LineOf(s)]
  }

  lemma LinesMore(ss: seq<T.Stmt>)
    requires ss != []
    ensures LinesOf(ss) == LinesOf(ss[..|ss| - 1]) + StmtLines(ss[|ss| - 1])
  {
    hide LineOf;
  }

  lemma GoodMore(front: seq<T.Stmt>, s: T.Stmt)
    ensures AllGood(front + [s]) <==> AllGood(front) && GoodStmt(s)
  {
    hide GoodStmt;
    var ss := front + [s];
    assert forall i :: 0 <= i < |front| ==> front[i] == ss[i];
    assert ss[|front|] == s;
  }

  lemma LastOff<X>(ss: seq<X>)
    requires ss != []
    ensures ss == ss[..|ss| - 1] + [ss[|ss| - 1]]
  {
  }

  lemma {:induction false} LinesReadIff(ss: seq<T.Stmt>)
    requires forall i :: 0 <= i < |ss| ==> KeyedStmt(ss[i])
    ensures ReadEach(LinesOf(ss)) == if AllGood(ss) then Some(ss) else None
  {
    if ss == [] {
      assert LinesOf(ss) == [];
    } else {
      hide *;
      var front, s := ss[..|ss| - 1], ss[|ss| - 1];
      LastOff(ss);
      LinesMore(ss);
      GoodMore(front, s);
      LinesReadIff(front);
      LineReadsIff(s);
      OneOrTwo(s);
      EachConcat(LinesOf(front), StmtLines(s));
      BothParts(front, s, AllGood(front), GoodStmt(s));
    }
  }

  lemma BothParts(front: seq<T.Stmt>, s: T.Stmt, a: bool, b: bool)
    ensures Both(if a then Some(front) else None, if b then Some([s]) else None) == if a && b then Some(front + [s]) else None
  {
  }

  lemma OneOrTwo(s: T.Stmt)
    ensures ReadEach(StmtLines(s)) == ReadLines(SplitLines(LineOf(s)))
  {
    BlankReads();
    hide ReadLines, SplitLines, Both, LineOf;
    var line := LineOf(s);
    var one, two: seq<string> := [line], [[], line];
    assert one[1..] == [] && ReadEach(one[1..]) == Some([]) && ReadEach(one) == Both(ReadLines(SplitLines(line)), Some([]));
    assert two[1..] == one && ReadEach(two) == Both(ReadLines(SplitLines(two[0])), ReadEach(one));
    BothLaws(ReadLines(SplitLines(line)), None, None);
  }
}
