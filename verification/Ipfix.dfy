/** Reading IPFIX messages by RFC 7011: the message header (section 3.1), sets and
    their padding (3.3), templates and options templates (3.4) and
    variable-length fields (section 7). */
module Ipfix {
  import opened Cursors

  newtype byte = x: int | 0 <= x < 256
  type bytes = seq<byte>

  // ---- big-endian integers -----------------------------------------------------

  /** What a reader got, and the octets after it. */
  datatype Parsed<T> = Parsed(got: T, rest: bytes)

  function U16(n: nat): (b: bytes)
    ensures |b| == 2
  {
    [(n / 256 % 256) as byte, (n % 256) as byte]
  }

  function U32(n: nat): (b: bytes)
    ensures |b| == 4
  {
    U16(n / 65536) + U16(n % 65536)
  }

  /** `int.from_bytes(b, "big")`. */
  function Value(b: bytes): (n: nat) {
    if b == [] then 0 else 256 * Value(b[..|b| - 1]) + b[|b| - 1] as nat
  }

  lemma U16Value(n: nat)
    requires n < 65536
    ensures Value(U16(n)) == n
  {
    var b := U16(n);
    assert b[..1] == [b[0]] && b[..1][..0] == [];
    assert Value(b[..1]) == b[0] as nat;
  }

  lemma ValueSplit(a: bytes, b: bytes)
    requires |b| == 2
    ensures Value(a + b) == 65536 * Value(a) + Value(b)
  {
    assert (a + b)[..|a| + 1] == a + b[..1] && (a + b[..1])[..|a|] == a;
    assert Value(a + b[..1]) == 256 * Value(a) + b[0] as nat;
    assert b[..1][..0] == [] && Value(b[..1]) == b[0] as nat;
  }

  lemma U32Value(n: nat)
    requires n < 4294967296
    ensures Value(U32(n)) == n
  {
    ValueSplit(U16(n / 65536), U16(n % 65536));
    U16Value(n / 65536);
    U16Value(n % 65536);
  }

  function Zeros(n: nat): (b: bytes)
    ensures |b| == n && forall i :: 0 <= i < n ==> b[i] == 0
  {
    seq(n, i => 0)
  }

  predicate AllZero(b: bytes) {
    forall i :: 0 <= i < |b| ==> b[i] == 0
  }

  // ---- templates ------------------------------------------------------------------

  /** A field specifier; a length of 65535 means variable. */
  datatype FieldSpec = FieldSpec(enterprise: Option<nat>, id: nat, length: nat)

  datatype Template = Template(scopes: nat, fields: seq<FieldSpec>)

  const VARIABLE: nat := 65535

  predicate ValidSpec(s: FieldSpec) {
    s.id < 32768 && s.length < 65536 && (s.enterprise.Some? ==> s.enterprise.value < 4294967296)
  }

  function SpecBytes(s: FieldSpec): bytes
  {
    U16((if s.enterprise.Some? then 32768 else 0) + s.id) + U16(s.length)
    + if s.enterprise.Some? then U32(s.enterprise.value) else []
  }

  function SpecsBytes(fields: seq<FieldSpec>): bytes {
    if fields == [] then [] else SpecBytes(fields[0]) + SpecsBytes(fields[1..])
  }

  function ReadSpecs(n: nat, b: bytes): (r: Option<Parsed<seq<FieldSpec>>>)
    ensures r.Some? ==> |r.value.got| == n && |r.value.rest| + 4 * n <= |b|
  {
    if n == 0 then Some(Parsed([], b))
    else if |b| < 4 then None
    else
      var word, length := Value(b[..2]), Value(b[2..4]);
      if word >= 32768 && |b| < 8 then None
      else
        var spec := if word < 32768 then FieldSpec(None, word, length)
                    else FieldSpec(Some(Value(b[4..8])), word - 32768, length);
        match ReadSpecs(n - 1, b[if word < 32768 then 4 else 8..])
        case None => None
        case Some(Parsed(more, rest)) => Some(Parsed([spec] + more, rest))
  }

  lemma SpecParts(s: FieldSpec, rest: bytes)
    requires ValidSpec(s)
    ensures var b := SpecBytes(s) + rest;
      if s.enterprise.Some? then
        && |b| >= 8 && Value(b[..2]) == 32768 + s.id && Value(b[2..4]) == s.length && Value(b[4..8]) == s.enterprise.value
        && b[8..] == rest
      else |b| >= 4 && Value(b[..2]) == s.id && Value(b[2..4]) == s.length && b[4..] == rest
  {
    hide Value, U16, U32;
    var word := (if s.enterprise.Some? then 32768 else 0) + s.id;
    var b := SpecBytes(s) + rest;
    U16Value(word);
    U16Value(s.length);
    assert b[..2] == U16(word) && b[2..4] == U16(s.length);
    if s.enterprise.Some? {
      U32Value(s.enterprise.value);
      assert b[4..8] == U32(s.enterprise.value);
    }
  }

  lemma {:induction false} SpecsRoundTrip(fields: seq<FieldSpec>, rest: bytes)
    requires forall s :: s in fields ==> ValidSpec(s)
    ensures ReadSpecs(|fields|, SpecsBytes(fields) + rest) == Some(Parsed(fields, rest))
  {
    if fields == [] {
      assert SpecsBytes(fields) + rest == rest;
    } else {
      var s, tail := fields[0], SpecsBytes(fields[1..]) + rest;
      assert ValidSpec(s);
      SpecsRoundTrip(fields[1..], rest);
      Assoc(SpecBytes(s), SpecsBytes(fields[1..]), rest);
      hide SpecBytes, Value, SpecsBytes;
      SpecParts(s, tail);
      assert fields == [s] + fields[1..];
    }
  }

  /** The templates of a template set, or of an options template set; what is left
      over is padding. */
  function ReadTemplates(options: bool, b: bytes): (r: Option<map<nat, Template>>)
    decreases |b|
  {
    var head := if options then 6 else 4;
    if |b| < head then if AllZero(b) then Some(map[]) else None
    else
      var id, count, scopes := Value(b[..2]), Value(b[2..4]), if options then Value(b[4..6]) else 0;
      if id < 256 || count == 0 || scopes > count || (options && scopes == 0) then None
      else
        match ReadSpecs(count, b[head..])
        case None => None
        case Some(Parsed(fields, rest)) =>
          match ReadTemplates(options, rest)
          case None => None
          case Some(more) => Some(map[id := Template(scopes, fields)] + more)
  }

  // ---- data records --------------------------------------------------------------------

  /** A field's value and what follows it. A first octet of 255 announces the
      three-octet form of the length. */
  function ReadVariable(b: bytes): (r: Option<Parsed<bytes>>)
    ensures r.Some? ==> |r.value.got| + 1 + |r.value.rest| <= |b|
    ensures r.Some? && |r.value.got| >= 255 ==> |r.value.got| + 3 + |r.value.rest| <= |b|
  {
    if b == [] then None
    else if b[0] < 255 then
      var n := b[0] as nat;
      if |b| < 1 + n then None else Some(Parsed(b[1..1 + n], b[1 + n..]))
    else if |b| < 3 then None
    else
      var n := Value(b[1..3]);
      if |b| < 3 + n then None else Some(Parsed(b[3..3 + n], b[3 + n..]))
  }

  function ReadField(length: nat, b: bytes): (r: Option<Parsed<bytes>>) {
    if length == VARIABLE then ReadVariable(b)
    else if |b| < length then None
    else Some(Parsed(b[..length], b[length..]))
  }

  function MinLength(fields: seq<FieldSpec>): nat {
    if fields == [] then 0
    else (if fields[0].length == VARIABLE then 1 else fields[0].length) + MinLength(fields[1..])
  }

  function ReadRecord(fields: seq<FieldSpec>, b: bytes): (r: Option<Parsed<seq<bytes>>>)
    ensures r.Some? ==> |r.value.got| == |fields| && |r.value.rest| + MinLength(fields) <= |b|
  {
    if fields == [] then Some(Parsed([], b))
    else
      match ReadField(fields[0].length, b)
      case None => None
      case Some(Parsed(v, rest)) =>
        match ReadRecord(fields[1..], rest)
        case None => None
        case Some(Parsed(more, rest')) => Some(Parsed([v] + more, rest'))
  }

  /** Records until too few octets are left for one; those are padding. */
  function ReadData(fields: seq<FieldSpec>, b: bytes): (r: Option<seq<seq<bytes>>>)
    decreases |b|
  {
    if MinLength(fields) == 0 then None
    else if |b| < MinLength(fields) then if AllZero(b) then Some([]) else None
    else
      match ReadRecord(fields, b)
      case None => None
      case Some(Parsed(values, rest)) =>
        match ReadData(fields, rest)
        case None => None
        case Some(more) => Some([values] + more)
  }

  // ---- messages ------------------------------------------------------------------------------

  datatype DataRecord = DataRecord(template: nat, values: seq<bytes>)

  datatype Message = Message(exportTime: nat, sequence: nat, domain: bytes, records: seq<DataRecord>)

  function Tag(id: nat, rows: seq<seq<bytes>>): seq<DataRecord> {
    seq(|rows|, i requires 0 <= i < |rows| => DataRecord(id, rows[i]))
  }

  function ReadSets(b: bytes, templates: map<nat, Template>): (r: Option<seq<DataRecord>>)
    decreases |b|
  {
    if b == [] then Some([])
    else if |b| < 4 then None
    else
      var id, length := Value(b[..2]), Value(b[2..4]);
      if length < 4 || length > |b| then None
      else if id == 2 || id == 3 then
        match ReadTemplates(id == 3, b[4..length])
        case None => None
        case Some(more) => ReadSets(b[length..], templates + more)
      else if id < 256 || id !in templates then None
      else
        match ReadData(templates[id].fields, b[4..length])
        case None => None
        case Some(rows) =>
          match ReadSets(b[length..], templates)
          case None => None
          case Some(more) => Some(Tag(id, rows) + more)
  }

  function ReadMessage(b: bytes): (r: Option<Message>) {
    if |b| < 16 || Value(b[..2]) != 10 || Value(b[2..4]) != |b| then None
    else
      match ReadSets(b[16..], map[])
      case None => None
      case Some(records) => Some(Message(Value(b[4..8]), Value(b[8..12]), b[12..16], records))
  }

  // ---- reading back what was written ---------------------------------------------------------

  /** One set: its content, 4 octets of header and the rest. */
  function SetBytes(id: nat, content: bytes): bytes {
    U16(id) + U16(|content| + 4) + content
  }

  lemma SetParts(id: nat, content: bytes, rest: bytes)
    requires id < 65536 && |content| + 4 < 65536
    ensures var b := SetBytes(id, content) + rest;
      && |b| >= 4 && Value(b[..2]) == id && Value(b[2..4]) == |content| + 4 <= |b|
      && b[4..|content| + 4] == content && b[|content| + 4..] == rest
  {
    U16Value(id);
    U16Value(|content| + 4);
    var b := SetBytes(id, content) + rest;
    assert b[..2] == U16(id) && b[2..4] == U16(|content| + 4);
  }

  lemma TemplateSet(options: bool, content: bytes, rest: bytes, templates: map<nat, Template>)
    requires |content| + 4 < 65536 && ReadTemplates(options, content).Some?
    ensures ReadSets(SetBytes(if options then 3 else 2, content) + rest, templates)
            == ReadSets(rest, templates + ReadTemplates(options, content).value)
  {
    SetParts(if options then 3 else 2, content, rest);
  }

  lemma DataSet(id: nat, content: bytes, rest: bytes, templates: map<nat, Template>)
    requires 256 <= id < 65536 && id in templates && |content| + 4 < 65536
    requires ReadData(templates[id].fields, content).Some? && ReadSets(rest, templates).Some?
    ensures ReadSets(SetBytes(id, content) + rest, templates)
            == Some(Tag(id, ReadData(templates[id].fields, content).value) + ReadSets(rest, templates).value)
  {
    SetParts(id, content, rest);
  }

  /** A field in the short form (its value below 255 octets). */
  function FieldBytes(spec: FieldSpec, v: bytes): bytes {
    if spec.length == VARIABLE then [if |v| < 255 then |v| as byte else 254] + v else v
  }

  /** Values a template can carry, each variable one in the short form. */
  predicate Fit(fields: seq<FieldSpec>, values: seq<bytes>) {
    |values| == |fields| &&
    forall i :: 0 <= i < |fields| ==> if fields[i].length == VARIABLE then |values[i]| < 255 else |values[i]| == fields[i].length
  }

  function RecordBytes(fields: seq<FieldSpec>, values: seq<bytes>): bytes {
    if fields == [] || values == [] then [] else FieldBytes(fields[0], values[0]) + RecordBytes(fields[1..], values[1..])
  }

  lemma Assoc(a: bytes, b: bytes, c: bytes)
    ensures a + b + c == a + (b + c)
  {
  }

  lemma ReadOneField(spec: FieldSpec, v: bytes, rest: bytes)
    requires if spec.length == VARIABLE then |v| < 255 else |v| == spec.length
    ensures ReadField(spec.length, FieldBytes(spec, v) + rest) == Some(Parsed(v, rest))
  {
    var b := FieldBytes(spec, v) + rest;
    if spec.length == VARIABLE {
      assert b[0] as nat == |v| && b[1..1 + |v|] == v && b[1 + |v|..] == rest;
    } else {
      assert b[..|v|] == v && b[|v|..] == rest;
    }
  }

  lemma {:induction false} RecordRoundTrip(fields: seq<FieldSpec>, values: seq<bytes>, rest: bytes)
    requires Fit(fields, values)
    ensures ReadRecord(fields, RecordBytes(fields, values) + rest) == Some(Parsed(values, rest))
  {
    if fields == [] {
      assert RecordBytes(fields, values) + rest == rest;
    } else {
      var tail := RecordBytes(fields[1..], values[1..]) + rest;
      Assoc(FieldBytes(fields[0], values[0]), RecordBytes(fields[1..], values[1..]), rest);
      hide RecordBytes, FieldBytes, ReadField;
      ReadOneField(fields[0], values[0], tail);
      RecordRoundTrip(fields[1..], values[1..], rest);
      assert values == [values[0]] + values[1..];
    }
  }

  /** The fewest octets that can carry a value: from 255 on it needs the long form. */
  function Cost(spec: FieldSpec, v: bytes): nat {
    if spec.length != VARIABLE then |v| else if |v| < 255 then 1 + |v| else 3 + |v|
  }

  function Costs(fields: seq<FieldSpec>, values: seq<bytes>): nat
    requires |fields| == |values|
  {
    if fields == [] then 0 else Cost(fields[0], values[0]) + Costs(fields[1..], values[1..])
  }

  lemma {:induction false} ReadingCosts(fields: seq<FieldSpec>, b: bytes)
    requires ReadRecord(fields, b).Some?
    ensures Costs(fields, ReadRecord(fields, b).value.got) + |ReadRecord(fields, b).value.rest| <= |b|
  {
    if fields != [] {
      var Parsed(v, rest) := ReadField(fields[0].length, b).value;
      ReadingCosts(fields[1..], rest);
      var values := ReadRecord(fields, b).value.got;
      assert values[1..] == ReadRecord(fields[1..], rest).value.got && values[0] == v;
    }
  }

  function RowsBytes(fields: seq<FieldSpec>, rows: seq<seq<bytes>>): bytes {
    if rows == [] then [] else RecordBytes(fields, rows[0]) + RowsBytes(fields, rows[1..])
  }

  lemma ReadDataStep(fields: seq<FieldSpec>, b: bytes, values: seq<bytes>, rest: bytes, rows: seq<seq<bytes>>)
    requires 0 < MinLength(fields) && ReadRecord(fields, b) == Some(Parsed(values, rest)) && ReadData(fields, rest) == Some(rows)
    ensures ReadData(fields, b) == Some([values] + rows)
  {
    hide ReadRecord, MinLength;
  }

  /** Rows read back unambiguously when the padding is shorter than any record. */
  lemma {:induction false} DataRoundTrip(fields: seq<FieldSpec>, rows: seq<seq<bytes>>, padding: nat)
    requires (forall r :: r in rows ==> Fit(fields, r)) && padding < MinLength(fields)
    ensures ReadData(fields, RowsBytes(fields, rows) + Zeros(padding)) == Some(rows)
  {
    if rows == [] {
      assert RowsBytes(fields, rows) + Zeros(padding) == Zeros(padding);
    } else {
      hide RecordBytes, ReadRecord, MinLength, Fit, ReadData, Zeros;
      var tail := RowsBytes(fields, rows[1..]) + Zeros(padding);
      Assoc(RecordBytes(fields, rows[0]), RowsBytes(fields, rows[1..]), Zeros(padding));
      hide RowsBytes;
      RecordRoundTrip(fields, rows[0], tail);
      DataRoundTrip(fields, rows[1..], padding);
      ReadDataStep(fields, RecordBytes(fields, rows[0]) + tail, rows[0], tail, rows[1..]);
      assert rows == [rows[0]] + rows[1..];
    }
  }

  lemma TemplateRoundTrip(options: bool, id: nat, scopes: nat, fields: seq<FieldSpec>, padding: nat)
    requires 256 <= id < 65536 && 0 < |fields| < 65536 && scopes <= |fields| && padding < 4
    requires if options then 0 < scopes else scopes == 0
    requires forall s :: s in fields ==> ValidSpec(s)
    ensures ReadTemplates(options, TemplateBytes(options, id, scopes, fields) + Zeros(padding))
            == Some(map[id := Template(scopes, fields)])
  {
    hide Value, U16, SpecsBytes, ValidSpec, ReadSpecs;
    var b := TemplateBytes(options, id, scopes, fields) + Zeros(padding);
    U16Value(id);
    U16Value(|fields|);
    U16Value(scopes);
    assert b[..2] == U16(id) && b[2..4] == U16(|fields|);
    if options { assert b[4..6] == U16(scopes); }
    assert b[if options then 6 else 4..] == SpecsBytes(fields) + Zeros(padding);
    SpecsRoundTrip(fields, Zeros(padding));
    assert map[id := Template(scopes, fields)] + map[] == map[id := Template(scopes, fields)];
  }

  function TemplateBytes(options: bool, id: nat, scopes: nat, fields: seq<FieldSpec>): bytes {
    U16(id) + U16(|fields|) + (if options then U16(scopes) else []) + SpecsBytes(fields)
  }
}
