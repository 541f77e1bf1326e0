/** Reading the text of a TOML v1.0.0 document line by line, as far as a switch
    file uses it: bare and basic-quoted keys, dotted headers, basic strings,
    booleans, decimal integers and empty arrays. Anything else is not read. */
module TomlText {
  import opened Cursors
  import opened Toml

  /** What a reader got, and the text after it. */
  datatype Parsed<T> = Parsed(got: T, rest: string)

  predicate IsBare(c: char) {
    'a' <= c <= 'z' || 'A' <= c <= 'Z' || '0' <= c <= '9' || c == '_' || c == '-'
  }

  function SkipSpace(s: string): (r: string)
    ensures |r| <= |s|
  {
    if s != [] && (s[0] == ' ' || s[0] == '\t') then SkipSpace(s[1..]) else s
  }

  // ---- strings ----------------------------------------------------------------------

  /** A character a basic string may hold as it stands. */
  predicate Unescaped(c: char) {
    c == '\t' || (' ' <= c && c != '"' && c != '\\' && c != '\U{007F}')
  }

  function HexValue(c: char): Option<nat> {
    if '0' <= c <= '9' then Some(c as int - '0' as int)
    else if 'a' <= c <= 'f' then Some(c as int - 'a' as int + 10)
    else if 'A' <= c <= 'F' then Some(c as int - 'A' as int + 10)
    else None
  }

  function HexNumber(s: string): (r: Option<nat>) {
    if s == [] then Some(0)
    else
      var high, low := HexNumber(s[..|s| - 1]), HexValue(s[|s| - 1]);
      if high.None? || low.None? then None else Some(16 * high.value + low.value)
  }

  /** One escape after its backslash: the character, and how many more it took. */
  function ReadEscape(s: string): Option<(char, nat)> {
    if s == [] then None
    else
      match s[0]
      case 'b' => Some(('\U{0008}', 1))
      case 't' => Some(('\t', 1))
      case 'n' => Some(('\n', 1))
      case 'f' => Some(('\U{000C}', 1))
      case 'r' => Some(('\r', 1))
      case '"' => Some(('"', 1))
      case '\\' => Some(('\\', 1))
      case 'u' => ReadCode(s, 4)
      case 'U' => ReadCode(s, 8)
      case _ => None
  }

  function ReadCode(s: string, digits: nat): Option<(char, nat)>
    requires s != []
  {
    if |s| < 1 + digits then None
    else
      match HexNumber(s[1..1 + digits])
      case None => None
      case Some(n) => if n < 0xD800 || 0xE000 <= n < 0x110000 then Some((n as char, 1 + digits)) else None
  }

  /** The rest of a basic string, after its opening quote, and what follows it. */
  function ReadString(s: string): (r: Option<Parsed<string>>)
    ensures r.Some? ==> |r.value.rest| < |s|
  {
    if s == [] then None
    else if s[0] == '"' then Some(Parsed([], s[1..]))
    else if s[0] == '\\' then
      match ReadEscape(s[1..])
      case None => None
      case Some((c, taken)) =>
        if taken > |s| - 1 then None
        else
          match ReadString(s[1 + taken..])
          case None => None
          case Some(Parsed(more, rest)) => Some(Parsed([c] + more, rest))
    else if !Unescaped(s[0]) then None
    else
      match ReadString(s[1..])
      case None => None
      case Some(Parsed(more, rest)) => Some(Parsed([s[0]] + more, rest))
  }

  // ---- keys ----------------------------------------------------------------------------

  function ReadBare(s: string): (r: Parsed<string>)
    ensures |r.got| + |r.rest| == |s|
  {
    if s == [] || !IsBare(s[0]) then Parsed([], s)
    else
      var Parsed(more, rest) := ReadBare(s[1..]);
      Parsed([s[0]] + more, rest)
  }

  function ReadKey(s: string): (r: Option<Parsed<string>>)
    ensures r.Some? ==> |r.value.rest| < |s|
  {
    if s == [] then None
    else if s[0] == '"' then ReadString(s[1..])
    else
      var Parsed(k, rest) := ReadBare(s);
      if k == [] then None else Some(Parsed(k, rest))
  }

  /** A key, or several with dots between them. */
  function ReadPath(s: string): (r: Option<Parsed<seq<string>>>)
    decreases |s|
  {
    match ReadKey(s)
    case None => None
    case Some(Parsed(k, rest)) =>
      var rest := SkipSpace(rest);
      if rest != [] && rest[0] == '.' then
        match ReadPath(SkipSpace(rest[1..]))
        case None => None
        case Some(Parsed(more, rest')) => Some(Parsed([k] + more, rest'))
      else Some(Parsed([k], rest))
  }

  // ---- values ---------------------------------------------------------------------------

  function ReadDigits(s: string): (r: Parsed<string>)
    ensures |r.got| + |r.rest| == |s|
  {
    if s == [] || !('0' <= s[0] <= '9') then Parsed([], s)
    else
      var Parsed(more, rest) := ReadDigits(s[1..]);
      Parsed([s[0]] + more, rest)
  }

  function DigitsValue(s: string): nat
    requires forall i :: 0 <= i < |s| ==> '0' <= s[i] <= '9'
  {
    if s == [] then 0 else 10 * DigitsValue(s[..|s| - 1]) + (s[|s| - 1] as int - '0' as int)
  }

  lemma {:induction false} DigitsAreDigits(s: string)
    ensures forall i :: 0 <= i < |ReadDigits(s).got| ==> '0' <= ReadDigits(s).got[i] <= '9'
  {
    if s != [] && '0' <= s[0] <= '9' { DigitsAreDigits(s[1..]); }
  }

  /** An integer: no leading zero. */
  function ReadInteger(s: string): Option<Parsed<int>> {
    var negative := s != [] && s[0] == '-';
    var body := if s != [] && (s[0] == '-' || s[0] == '+') then s[1..] else s;
    var Parsed(digits, rest) := ReadDigits(body);
    DigitsAreDigits(body);
    if digits == [] || (digits[0] == '0' && |digits| > 1) then None
    else Some(Parsed(if negative then 0 - DigitsValue(digits) else DigitsValue(digits) as int, rest))
  }

  predicate Begins(s: string, prefix: string) {
    |prefix| <= |s| && s[..|prefix|] == prefix
  }

  function ReadValue(s: string): Option<Parsed<Scalar>> {
    if s == [] then None
    else if s[0] == '"' then
      (match ReadString(s[1..])
       case None => None
       case Some(Parsed(text, rest)) => Some(Parsed(Text(text), rest)))
    else if Begins(s, "true") then Some(Parsed(Boolean(true), s[4..]))
    else if Begins(s, "false") then Some(Parsed(Boolean(false), s[5..]))
    else if s[0] == '[' then
      var inside := SkipSpace(s[1..]);
      if inside != [] && inside[0] == ']' then Some(Parsed(EmptyArray, inside[1..])) else None
    else
      match ReadInteger(s)
      case None => None
      case Some(Parsed(n, rest)) => Some(Parsed(Integer(n), rest))
  }

  // ---- lines --------------------------------------------------------------------------------

  predicate OnlySpace(s: string) {
    SkipSpace(s) == []
  }

  /** One line: nothing, or one statement. */
  function ReadLine(line: string): Option<Option<Stmt>> {
    var s := SkipSpace(line);
    if s == [] then Some(None)
    else if Begins(s, "[[") then
      (match ReadPath(SkipSpace(s[2..]))
       case None => None
       case Some(Parsed(path, rest)) =>
         var rest := SkipSpace(rest);
         if Begins(rest, "]]") && OnlySpace(rest[2..]) then Some(Some(ArrayHeader(path))) else None)
    else if s[0] == '[' then
      (match ReadPath(SkipSpace(s[1..]))
       case None => None
       case Some(Parsed(path, rest)) =>
         var rest := SkipSpace(rest);
         if Begins(rest, "]") && OnlySpace(rest[1..]) then Some(Some(Header(path))) else None)
    else
      match ReadPath(s)
      case None => None
      case Some(Parsed(path, rest)) =>
        var rest := SkipSpace(rest);
        if |path| != 1 || !Begins(rest, "=") then None
        else
          match ReadValue(SkipSpace(rest[1..]))
          case None => None
          case Some(Parsed(v, rest)) => if OnlySpace(rest) then Some(Some(KeyValue(path[0], v))) else None
  }

  /** The lines of a text: what stands between its newlines. */
  function SplitLines(text: string): (lines: seq<string>)
    ensures lines != []
  {
    if text == [] then [[]]
    else
      var lines := SplitLines(text[1..]);
      if text[0] == '\n' then [[]] + lines else [[text[0]] + lines[0]] + lines[1..]
  }

  function ReadLines(lines: seq<string>): Option<seq<Stmt>> {
    if lines == [] then Some([])
    else
      match ReadLine(lines[0])
      case None => None
      case Some(s) =>
        match ReadLines(lines[1..])
        case None => None
        case Some(more) => Some((if s.Some? then [s.value] else []) + more)
  }

  /** The document of a text. */
  function Parse(text: string): Option<Tree> {
    match ReadLines(SplitLines(text))
    case None => None
    case Some(ss) =>
      match Run(map[], [], ss)
      case None => None
      case Some((tree, _)) => Some(tree)
  }
}
