/** The PSKReporter wire format (payload/psk_pskr.py): spots and receiver packed
    into one IPFIX message, and spots chunked to a packet length. Strings are
    their UTF-8 octets. */
module PskCodec {
  import opened Cursors
  import opened Ipfix

  const MAX_PACKET_LEN_TCP: int := 25000

  datatype Spot = Spot(callsign: bytes, frequency: int, snr: int, mode: bytes, locator: bytes, timestamp: int, message: bytes)

  datatype Receiver = Receiver(callsign: bytes, locator: bytes, software: bytes, antenna: bytes)

  const RECEIVER_ID: nat := 0x9992
  const SENDER_ID: nat := 0x9994
  const RECEIVER_DELIM: bytes := [0x99, 0x92]
  const SENDER_DELIM: bytes := [0x99, 0x94]

  const RECEIVER_SPECS: bytes :=
    [0x80, 0x02, 0xFF, 0xFF, 0x00, 0x00, 0x76, 0x8F]
    + [0x80, 0x04, 0xFF, 0xFF, 0x00, 0x00, 0x76, 0x8F]
    + [0x80, 0x08, 0xFF, 0xFF, 0x00, 0x00, 0x76, 0x8F]
    + [0x80, 0x09, 0xFF, 0xFF, 0x00, 0x00, 0x76, 0x8F]

  const RECEIVER_INFO_HEADER: bytes :=
    [0x00, 0x03, 0x00, 0x2C] + RECEIVER_DELIM + [0x00, 0x04, 0x00, 0x01] + RECEIVER_SPECS + [0x00, 0x00]

  const SENDER_SPECS_1: bytes :=
    [0x80, 0x01, 0xFF, 0xFF, 0x00, 0x00, 0x76, 0x8F]
    + [0x80, 0x05, 0x00, 0x04, 0x00, 0x00, 0x76, 0x8F]
    + [0x80, 0x06, 0x00, 0x01, 0x00, 0x00, 0x76, 0x8F]
    + [0x80, 0x0A, 0xFF, 0xFF, 0x00, 0x00, 0x76, 0x8F]

  const SENDER_SPECS_2: bytes :=
    [0x80, 0x03, 0xFF, 0xFF, 0x00, 0x00, 0x76, 0x8F]
    + [0x80, 0x0B, 0x00, 0x01, 0x00, 0x00, 0x76, 0x8F]
    + [0x00, 0x96, 0x00, 0x04]
    + [0x80, 0x0E, 0xFF, 0xFF, 0x00, 0x00, 0x76, 0x8F]

  const SENDER_INFO_HEADER: bytes := [0x00, 0x02, 0x00, 0x44] + SENDER_DELIM + [0x00, 0x08] + SENDER_SPECS_1 + SENDER_SPECS_2

  // ---- what the headers declare ---------------------------------------------------

  const ENTERPRISE: Option<nat> := Some(30351)

  function Own(id: nat, length: nat): FieldSpec {
    FieldSpec(ENTERPRISE, id, length)
  }

  const RECEIVER_FIELDS: seq<FieldSpec> := [Own(2, VARIABLE), Own(4, VARIABLE), Own(8, VARIABLE), Own(9, VARIABLE)]

  const SENDER_FIELDS: seq<FieldSpec> :=
    [Own(1, VARIABLE), Own(5, 4), Own(6, 1), Own(10, VARIABLE), Own(3, VARIABLE), Own(11, 1), FieldSpec(None, 150, 4),
     Own(14, VARIABLE)]

  lemma {:induction false} SpecsSplit(a: seq<FieldSpec>, b: seq<FieldSpec>)
    ensures SpecsBytes(a + b) == SpecsBytes(a) + SpecsBytes(b)
  {
    if a == [] {
      assert a + b == b;
    } else {
      SpecsSplit(a[1..], b);
      assert (a + b)[1..] == a[1..] + b && (a + b)[0] == a[0];
      Assoc(SpecBytes(a[0]), SpecsBytes(a[1..]), SpecsBytes(b));
    }
  }

  lemma FourSpecs(a: FieldSpec, b: FieldSpec, c: FieldSpec, d: FieldSpec)
    ensures SpecsBytes([a, b, c, d]) == SpecBytes(a) + SpecBytes(b) + SpecBytes(c) + SpecBytes(d)
  {
    hide SpecBytes;
    assert [a, b, c, d][1..] == [b, c, d] && [b, c, d][1..] == [c, d] && [c, d][1..] == [d] && [d][1..] == [];
    assert SpecBytes(d) + [] == SpecBytes(d);
    assert SpecsBytes([d]) == SpecBytes(d);
    assert SpecsBytes([c, d]) == SpecBytes(c) + SpecBytes(d);
    assert SpecsBytes([b, c, d]) == SpecBytes(b) + (SpecBytes(c) + SpecBytes(d));
    Assoc(SpecBytes(a), SpecBytes(b), SpecBytes(c) + SpecBytes(d));
    Assoc(SpecBytes(a) + SpecBytes(b), SpecBytes(c), SpecBytes(d));
  }

  lemma OwnSpec(id: nat, length: nat)
    requires id < 256 && length < 65536
    ensures SpecBytes(Own(id, length)) == [0x80, id as byte, (length / 256) as byte, (length % 256) as byte, 0x00, 0x00, 0x76, 0x8F]
  {
  }

  lemma ReceiverSpecs()
    ensures SpecsBytes(RECEIVER_FIELDS) == RECEIVER_SPECS
  {
    FourSpecs(Own(2, VARIABLE), Own(4, VARIABLE), Own(8, VARIABLE), Own(9, VARIABLE));
    OwnSpec(2, VARIABLE);
    OwnSpec(4, VARIABLE);
    OwnSpec(8, VARIABLE);
    OwnSpec(9, VARIABLE);
    hide SpecBytes, SpecsBytes;
  }

  const SENDER_FIELDS_1: seq<FieldSpec> := [Own(1, VARIABLE), Own(5, 4), Own(6, 1), Own(10, VARIABLE)]
  const SENDER_FIELDS_2: seq<FieldSpec> := [Own(3, VARIABLE), Own(11, 1), FieldSpec(None, 150, 4), Own(14, VARIABLE)]

  lemma SenderSpecs1()
    ensures SpecsBytes(SENDER_FIELDS_1) == SENDER_SPECS_1
  {
    FourSpecs(Own(1, VARIABLE), Own(5, 4), Own(6, 1), Own(10, VARIABLE));
    OwnSpec(1, VARIABLE);
    OwnSpec(5, 4);
    OwnSpec(6, 1);
    OwnSpec(10, VARIABLE);
    hide SpecBytes, SpecsBytes;
  }

  lemma SenderSpecs2()
    ensures SpecsBytes(SENDER_FIELDS_2) == SENDER_SPECS_2
  {
    var seconds := FieldSpec(None, 150, 4);
    assert SpecBytes(seconds) == [0x00, 0x96, 0x00, 0x04];
    FourSpecs(Own(3, VARIABLE), Own(11, 1), seconds, Own(14, VARIABLE));
    OwnSpec(3, VARIABLE);
    OwnSpec(11, 1);
    OwnSpec(14, VARIABLE);
    hide SpecBytes, SpecsBytes;
  }

  lemma SenderSpecs()
    ensures SpecsBytes(SENDER_FIELDS) == SENDER_SPECS_1 + SENDER_SPECS_2
  {
    assert SENDER_FIELDS == SENDER_FIELDS_1 + SENDER_FIELDS_2;
    hide SpecsBytes;
    SenderSpecs1();
    SenderSpecs2();
    SpecsSplit(SENDER_FIELDS_1, SENDER_FIELDS_2);
  }

  lemma Glue(a: bytes, b: bytes, c: bytes, d: bytes, e: bytes, f: bytes, g: bytes)
    ensures a + b + (c + d + e + f + g) == (a + b) + c + (d + e) + f + g
  {
  }

  /** The receiver's header is an options template set with two octets of padding. */
  lemma ReceiverHeaderIsTemplate()
    ensures RECEIVER_INFO_HEADER == SetBytes(3, TemplateBytes(true, RECEIVER_ID, 1, RECEIVER_FIELDS) + Zeros(2))
  {
    ReceiverSpecs();
    hide SpecsBytes;
    Glue(U16(3), U16(44), U16(RECEIVER_ID), U16(4), U16(1), SpecsBytes(RECEIVER_FIELDS), Zeros(2));
    assert |RECEIVER_SPECS| == 32;
    assert U16(3) + U16(44) == [0x00, 0x03, 0x00, 0x2C] && U16(RECEIVER_ID) == RECEIVER_DELIM;
    assert U16(4) + U16(1) == [0x00, 0x04, 0x00, 0x01] && Zeros(2) == [0x00, 0x00];
  }

  /** The sender's header is a template set. */
  lemma SenderHeaderIsTemplate()
    ensures SENDER_INFO_HEADER == SetBytes(2, TemplateBytes(false, SENDER_ID, 0, SENDER_FIELDS) + Zeros(0))
  {
    SenderSpecs();
    hide SpecsBytes;
    var specs := SpecsBytes(SENDER_FIELDS);
    Glue(U16(2), U16(68), U16(SENDER_ID), U16(8), [], specs, Zeros(0));
    assert |specs| == 60;
    assert U16(2) + U16(68) == [0x00, 0x02, 0x00, 0x44] && U16(SENDER_ID) == SENDER_DELIM;
    assert U16(8) + [] == [0x00, 0x08] && Zeros(0) == [];
    Glue([0x00, 0x02, 0x00, 0x44], [], SENDER_DELIM, [0x00, 0x08], [], SENDER_SPECS_1, SENDER_SPECS_2);
  }

  // ---- encoding -----------------------------------------------------------------------

  function Cut(b: bytes): (r: bytes)
    ensures |r| <= 255 && (|b| <= 255 ==> r == b)
  {
    if |b| > 255 then b[..255] else b
  }

  /** `_enc_str`, `_enc_bytes`. */
  function EncStr(b: bytes): bytes {
    [|Cut(b)| as byte] + Cut(b)
  }

  function Clamp(n: int): int {
    if n < -128 then -128 else if n > 127 then 127 else n
  }

  /** `_i8`: two's complement. */
  function I8(n: int): bytes {
    [(if Clamp(n) < 0 then Clamp(n) + 256 else Clamp(n)) as byte]
  }

  function SignedByte(b: byte): int {
    if b >= 128 then b as int - 256 else b as int
  }

  predicate Fits32(n: int) {
    0 <= n < 4294967296
  }

  predicate Encodable(s: Spot) {
    Fits32(s.frequency) && Fits32(s.timestamp)
  }

  /** `encode_spot`; none when an integer does not fit its field (OverflowError). */
  function EncodeSpot(s: Spot): Option<bytes> {
    if Encodable(s) then
      Some(EncStr(s.callsign) + U32(s.frequency) + I8(s.snr) + EncStr(s.mode) + EncStr(s.locator) + [0x01]
           + U32(s.timestamp) + EncStr(s.message))
    else None
  }

  /** `_pad(b, 4)`. */
  function Padding(n: nat): (r: nat)
    ensures r < 4 && (n + r) % 4 == 0
  {
    (4 - n % 4) % 4
  }

  function Pad4(b: bytes): (r: bytes)
    ensures |r| == |b| + Padding(|b|)
  {
    b + Zeros(Padding(|b|))
  }

  function ReceiverBody(rx: Receiver): (r: bytes)
    ensures |r| <= 1024
  {
    EncStr(rx.callsign) + EncStr(rx.locator) + EncStr(rx.software) + EncStr(rx.antenna)
  }

  function EncodeReceiverInfo(rx: Receiver): (r: bytes) {
    RECEIVER_DELIM + U16(|Pad4(ReceiverBody(rx))| + 4) + Pad4(ReceiverBody(rx))
  }

  function Joined(bs: seq<bytes>): bytes {
    if bs == [] then [] else Joined(bs[..|bs| - 1]) + bs[|bs| - 1]
  }

  function SenderBlock(encoded: seq<bytes>): bytes {
    SENDER_DELIM + U16(|Pad4(Joined(encoded))| + 4) + Pad4(Joined(encoded))
  }

  function Body(rx: Receiver, encoded: seq<bytes>): bytes {
    RECEIVER_INFO_HEADER + SENDER_INFO_HEADER + EncodeReceiverInfo(rx) + SenderBlock(encoded)
  }

  /** `build_packet`; none when it raises. */
  function BuildPacket(rx: Receiver, encoded: seq<bytes>, timestamp: int, sequence: int, session: bytes): Option<bytes> {
    if |session| != 4 || !Fits32(timestamp) || !Fits32(sequence) || 16 + |Body(rx, encoded)| >= 65536 then None
    else Some([0x00, 0x0A] + U16(16 + |Body(rx, encoded)|) + U32(timestamp) + U32(sequence) + session + Body(rx, encoded))
  }

  // ---- one spot -----------------------------------------------------------------------------

  /** The values a spot, and a receiver, stands for. */
  function SpotValues(s: Spot): seq<bytes>
    requires Encodable(s)
  {
    [s.callsign, U32(s.frequency), I8(s.snr), s.mode, s.locator, [0x01], U32(s.timestamp), s.message]
  }

  function ReceiverValues(rx: Receiver): seq<bytes> {
    [rx.callsign, rx.locator, rx.software, rx.antenna]
  }

  predicate ShortSpot(s: Spot) {
    |s.callsign| < 255 && |s.mode| < 255 && |s.locator| < 255 && |s.message| < 255
  }

  predicate ShortReceiver(rx: Receiver) {
    |rx.callsign| < 255 && |rx.locator| < 255 && |rx.software| < 255 && |rx.antenna| < 255
  }

  lemma {:induction false} RecordSplit(fs: seq<FieldSpec>, gs: seq<FieldSpec>, vs: seq<bytes>, ws: seq<bytes>)
    requires |fs| == |vs| && |gs| == |ws|
    ensures RecordBytes(fs + gs, vs + ws) == RecordBytes(fs, vs) + RecordBytes(gs, ws)
  {
    hide FieldBytes;
    if fs == [] {
      assert fs + gs == gs && vs + ws == ws;
    } else {
      RecordSplit(fs[1..], gs, vs[1..], ws);
      assert (fs + gs)[1..] == fs[1..] + gs && (vs + ws)[1..] == vs[1..] + ws;
      assert (fs + gs)[0] == fs[0] && (vs + ws)[0] == vs[0];
      Assoc(FieldBytes(fs[0], vs[0]), RecordBytes(fs[1..], vs[1..]), RecordBytes(gs, ws));
    }
  }

  lemma FitSplit(fs: seq<FieldSpec>, gs: seq<FieldSpec>, vs: seq<bytes>, ws: seq<bytes>)
    requires Fit(fs, vs) && Fit(gs, ws)
    ensures Fit(fs + gs, vs + ws)
  {
  }

  lemma FourFields(fs: seq<FieldSpec>, vs: seq<bytes>)
    requires |fs| == |vs| == 4
    ensures RecordBytes(fs, vs)
            == FieldBytes(fs[0], vs[0]) + FieldBytes(fs[1], vs[1]) + FieldBytes(fs[2], vs[2]) + FieldBytes(fs[3], vs[3])
  {
    var a, b, c, d := FieldBytes(fs[0], vs[0]), FieldBytes(fs[1], vs[1]), FieldBytes(fs[2], vs[2]), FieldBytes(fs[3], vs[3]);
    hide FieldBytes;
    assert RecordBytes(fs[3..], vs[3..]) == d + RecordBytes(fs[4..], vs[4..]) == d;
    assert fs[2..][1..] == fs[3..] && vs[2..][1..] == vs[3..];
    assert RecordBytes(fs[2..], vs[2..]) == c + d;
    assert fs[1..][1..] == fs[2..] && vs[1..][1..] == vs[2..];
    assert RecordBytes(fs[1..], vs[1..]) == b + (c + d);
    Assoc(a, b, c + d);
    Assoc(a + b, c, d);
  }

  lemma ShortField(id: nat, v: bytes)
    requires |v| < 255
    ensures FieldBytes(Own(id, VARIABLE), v) == EncStr(v)
  {
  }

  lemma FixedField(spec: FieldSpec, v: bytes)
    requires spec.length != VARIABLE
    ensures FieldBytes(spec, v) == v
  {
  }

  lemma EightFields(s: Spot)
    requires Encodable(s) && ShortSpot(s)
    ensures Fit(SENDER_FIELDS, SpotValues(s)) && RecordBytes(SENDER_FIELDS, SpotValues(s)) == EncodeSpot(s).value
  {
    var vs, ws := [s.callsign, U32(s.frequency), I8(s.snr), s.mode], [s.locator, [0x01], U32(s.timestamp), s.message];
    assert SENDER_FIELDS == SENDER_FIELDS_1 + SENDER_FIELDS_2 && SpotValues(s) == vs + ws;
    assert Fit(SENDER_FIELDS_1, vs) && Fit(SENDER_FIELDS_2, ws);
    hide Fit, RecordBytes, FieldBytes, EncStr, U32, I8;
    FitSplit(SENDER_FIELDS_1, SENDER_FIELDS_2, vs, ws);
    RecordSplit(SENDER_FIELDS_1, SENDER_FIELDS_2, vs, ws);
    FourFields(SENDER_FIELDS_1, vs);
    FourFields(SENDER_FIELDS_2, ws);
    ShortField(1, s.callsign);
    ShortField(10, s.mode);
    ShortField(3, s.locator);
    ShortField(14, s.message);
    FixedField(SENDER_FIELDS_1[1], vs[1]);
    FixedField(SENDER_FIELDS_1[2], vs[2]);
    FixedField(SENDER_FIELDS_2[1], ws[1]);
    FixedField(SENDER_FIELDS_2[2], ws[2]);
    Glue8(EncStr(s.callsign), U32(s.frequency), I8(s.snr), EncStr(s.mode), EncStr(s.locator), [0x01], U32(s.timestamp),
          EncStr(s.message));
  }

  lemma Glue8(a: bytes, b: bytes, c: bytes, d: bytes, e: bytes, f: bytes, g: bytes, h: bytes)
    ensures (a + b + c + d) + (e + f + g + h) == a + b + c + d + e + f + g + h
  {
  }

  lemma FourStrings(rx: Receiver)
    requires ShortReceiver(rx)
    ensures Fit(RECEIVER_FIELDS, ReceiverValues(rx)) && RecordBytes(RECEIVER_FIELDS, ReceiverValues(rx)) == ReceiverBody(rx)
  {
    hide RecordBytes, FieldBytes, EncStr;
    FourFields(RECEIVER_FIELDS, ReceiverValues(rx));
    ShortField(2, rx.callsign);
    ShortField(4, rx.locator);
    ShortField(8, rx.software);
    ShortField(9, rx.antenna);
  }

  // ---- reading one spot back ----------------------------------------------------------------

  lemma SpotLength(s: Spot)
    requires EncodeSpot(s).Some?
    ensures |EncodeSpot(s).value| == 14 + |Cut(s.callsign)| + |Cut(s.mode)| + |Cut(s.locator)| + |Cut(s.message)| <= 1034
  {
  }

  lemma SpotCosts(s: Spot)
    requires EncodeSpot(s).Some?
    ensures Costs(SENDER_FIELDS, SpotValues(s)) >= |EncodeSpot(s).value|
    ensures !ShortSpot(s) ==> Costs(SENDER_FIELDS, SpotValues(s)) > |EncodeSpot(s).value|
  {
    var f, v := SENDER_FIELDS, SpotValues(s);
    EightCosts(f, v);
    SpotLength(s);
  }

  lemma EightCosts(f: seq<FieldSpec>, v: seq<bytes>)
    requires |f| == |v| == 8
    ensures Costs(f, v) == Cost(f[0], v[0]) + Cost(f[1], v[1]) + Cost(f[2], v[2]) + Cost(f[3], v[3])
                           + Cost(f[4], v[4]) + Cost(f[5], v[5]) + Cost(f[6], v[6]) + Cost(f[7], v[7])
  {
    hide Cost;
    assert Costs(f[8..], v[8..]) == 0;
    assert f[7..][1..] == f[8..] && v[7..][1..] == v[8..] && f[6..][1..] == f[7..] && v[6..][1..] == v[7..];
    assert f[5..][1..] == f[6..] && v[5..][1..] == v[6..] && f[4..][1..] == f[5..] && v[4..][1..] == v[5..];
    assert f[3..][1..] == f[4..] && v[3..][1..] == v[4..] && f[2..][1..] == f[3..] && v[2..][1..] == v[3..];
    assert f[1..][1..] == f[2..] && v[1..][1..] == v[2..];
    assert Costs(f[6..], v[6..]) == Cost(f[6], v[6]) + Cost(f[7], v[7]);
    assert Costs(f[4..], v[4..]) == Cost(f[4], v[4]) + Cost(f[5], v[5]) + Costs(f[6..], v[6..]);
    assert Costs(f[2..], v[2..]) == Cost(f[2], v[2]) + Cost(f[3], v[3]) + Costs(f[4..], v[4..]);
  }

  /** A spot reads back, field by field and nothing of what follows it, exactly when
      no string field reaches 255 octets: the encoder never writes the long form. */
  lemma SpotReadsBackIff(s: Spot, rest: bytes)
    requires EncodeSpot(s).Some?
    ensures ReadRecord(SENDER_FIELDS, EncodeSpot(s).value + rest) == Some(Parsed(SpotValues(s), rest)) <==> ShortSpot(s)
  {
    if ShortSpot(s) {
      EightFields(s);
      RecordRoundTrip(SENDER_FIELDS, SpotValues(s), rest);
    } else {
      hide EncodeSpot, SpotValues, ReadRecord;
      SpotCosts(s);
      if ReadRecord(SENDER_FIELDS, EncodeSpot(s).value + rest).Some? {
        ReadingCosts(SENDER_FIELDS, EncodeSpot(s).value + rest);
      }
    }
  }

  /** A callsign of 255 octets is not read back. */
  lemma FullFieldIsMisread(frequency: int, snr: int, timestamp: int, rest: bytes)
    requires Fits32(frequency) && Fits32(timestamp)
    ensures var s := Spot(Zeros(255), frequency, snr, [], [], timestamp, []);
      ReadRecord(SENDER_FIELDS, EncodeSpot(s).value + rest) != Some(Parsed(SpotValues(s), rest))
  {
    SpotReadsBackIff(Spot(Zeros(255), frequency, snr, [], [], timestamp, []), rest);
    hide ReadRecord, SpotValues;
  }

  /** The values stand for the spot, its SNR clamped. */
  function SpotOf(values: seq<bytes>): Option<Spot> {
    if |values| != 8 || |values[2]| != 1 then None
    else Some(Spot(values[0], Value(values[1]), SignedByte(values[2][0]), values[3], values[4], Value(values[6]), values[7]))
  }

  lemma SpotOfValues(s: Spot)
    requires EncodeSpot(s).Some?
    ensures SpotOf(SpotValues(s)) == Some(s.(snr := Clamp(s.snr)))
  {
    U32Value(s.frequency);
    U32Value(s.timestamp);
  }

  // ---- one packet ----------------------------------------------------------------------------

  lemma MinLengths()
    ensures MinLength(SENDER_FIELDS) == 14 && MinLength(RECEIVER_FIELDS) == 4
  {
    var f := SENDER_FIELDS;
    assert f[1..][1..] == f[2..] && f[2..][1..] == f[3..] && f[3..][1..] == f[4..] && f[4..][1..] == f[5..];
    assert f[5..][1..] == f[6..] && f[6..][1..] == f[7..] && f[7..][1..] == f[8..] == [];
    assert MinLength(f[7..]) == 1;
    assert MinLength(f[6..]) == 4 + MinLength(f[7..]) == 5;
    assert MinLength(f[5..]) == 1 + MinLength(f[6..]) == 6;
    assert MinLength(f[4..]) == 1 + MinLength(f[5..]) == 7;
    assert MinLength(f[3..]) == 1 + MinLength(f[4..]) == 8;
    assert MinLength(f[2..]) == 1 + MinLength(f[3..]) == 9;
    assert MinLength(f[1..]) == 4 + MinLength(f[2..]) == 13;
    var g := RECEIVER_FIELDS;
    assert g[1..][1..] == g[2..] && g[2..][1..] == g[3..] && g[3..][1..] == [];
    assert MinLength(g[2..]) == 2;
  }

  lemma {:induction false} JoinedFront(a: bytes, bs: seq<bytes>)
    ensures Joined([a] + bs) == a + Joined(bs)
  {
    if bs == [] {
      assert [a] + bs == [a] && [a][..0] == [];
      assert Joined([a]) == [] + a == a + [];
    } else {
      var front := bs[..|bs| - 1];
      assert ([a] + bs)[..|bs|] == [a] + front;
      JoinedFront(a, front);
      Assoc(a, Joined(front), bs[|bs| - 1]);
    }
  }

  /** Each of `encoded` is what its spot encodes to. */
  ghost predicate Encodes(spots: seq<Spot>, encoded: seq<bytes>) {
    |spots| == |encoded| && forall i :: 0 <= i < |spots| ==> EncodeSpot(spots[i]) == Some(encoded[i])
  }

  ghost predicate AllShort(spots: seq<Spot>) {
    forall s :: s in spots ==> ShortSpot(s)
  }

  function Rows(spots: seq<Spot>): seq<seq<bytes>>
    requires forall s :: s in spots ==> Encodable(s)
  {
    if spots == [] then [] else
      assert spots[0] in spots;
      [SpotValues(spots[0])] + Rows(spots[1..])
  }

  lemma AllEncodable(spots: seq<Spot>, encoded: seq<bytes>)
    requires Encodes(spots, encoded)
    ensures forall s :: s in spots ==> Encodable(s)
  {
    forall s | s in spots ensures Encodable(s) {
      var i :| 0 <= i < |spots| && spots[i] == s;
      assert EncodeSpot(spots[i]) == Some(encoded[i]);
    }
  }

  lemma {:induction false} RowsFit(spots: seq<Spot>)
    requires (forall s :: s in spots ==> Encodable(s)) && AllShort(spots)
    ensures forall r :: r in Rows(spots) ==> Fit(SENDER_FIELDS, r)
  {
    if spots != [] {
      assert spots[0] in spots && forall s :: s in spots[1..] ==> s in spots;
      RowsFit(spots[1..]);
      EightFields(spots[0]);
      hide Fit, ShortSpot, Encodable;
      assert Rows(spots) == [SpotValues(spots[0])] + Rows(spots[1..]);
    }
  }

  lemma RowsBytesStep(fields: seq<FieldSpec>, row: seq<bytes>, rows: seq<seq<bytes>>)
    ensures RowsBytes(fields, [row] + rows) == RecordBytes(fields, row) + RowsBytes(fields, rows)
  {
    assert ([row] + rows)[1..] == rows;
  }

  lemma EncodedIsEncodable(s: Spot)
    ensures EncodeSpot(s).Some? <==> Encodable(s)
  {
  }

  lemma FirstSpot(spots: seq<Spot>, encoded: seq<bytes>)
    requires spots != [] && Encodes(spots, encoded) && AllShort(spots)
    ensures Encodes(spots[1..], encoded[1..]) && AllShort(spots[1..])
    ensures EncodeSpot(spots[0]) == Some(encoded[0]) && Encodable(spots[0]) && ShortSpot(spots[0])
    ensures encoded == [encoded[0]] + encoded[1..]
  {
    hide ShortSpot, Encodable;
    EncodedIsEncodable(spots[0]);
    hide EncodeSpot;
    assert spots[0] in spots && forall s :: s in spots[1..] ==> s in spots;
  }

  lemma {:induction false} JoinedIsRows(spots: seq<Spot>, encoded: seq<bytes>)
    requires Encodes(spots, encoded) && AllShort(spots) && (forall s :: s in spots ==> Encodable(s))
    ensures Joined(encoded) == RowsBytes(SENDER_FIELDS, Rows(spots))
  {
    if spots != [] {
      assert Rows(spots) == [SpotValues(spots[0])] + Rows(spots[1..]);
      FirstSpot(spots, encoded);
      hide *;
      EightFields(spots[0]);
      JoinedIsRows(spots[1..], encoded[1..]);
      JoinedFront(encoded[0], encoded[1..]);
      RowsBytesStep(SENDER_FIELDS, SpotValues(spots[0]), Rows(spots[1..]));
    }
  }

  function Templates(): map<nat, Template> {
    map[RECEIVER_ID := Template(1, RECEIVER_FIELDS)] + map[SENDER_ID := Template(0, SENDER_FIELDS)]
  }

  lemma SenderBlockReads(spots: seq<Spot>, encoded: seq<bytes>)
    requires Encodes(spots, encoded) && AllShort(spots) && |Joined(encoded)| < 65528
    ensures forall s :: s in spots ==> Encodable(s)
    ensures ReadSets(SenderBlock(encoded), Templates()) == Some(Tag(SENDER_ID, Rows(spots)))
  {
    hide EncodeSpot, Fit, RowsBytes, ReadData, ShortSpot, Joined;
    AllEncodable(spots, encoded);
    RowsFit(spots);
    JoinedIsRows(spots, encoded);
    MinLengths();
    var content := Pad4(Joined(encoded));
    DataRoundTrip(SENDER_FIELDS, Rows(spots), Padding(|Joined(encoded)|));
    DataSet(SENDER_ID, content, [], Templates());
    assert U16(SENDER_ID) == SENDER_DELIM;
    assert SetBytes(SENDER_ID, content) + [] == SenderBlock(encoded);
    assert Tag(SENDER_ID, Rows(spots)) + [] == Tag(SENDER_ID, Rows(spots));
  }

  lemma ReceiverInfoReads(rx: Receiver, rest: bytes)
    requires ShortReceiver(rx) && ReadSets(rest, Templates()).Some?
    ensures ReadSets(EncodeReceiverInfo(rx) + rest, Templates())
            == Some(Tag(RECEIVER_ID, [ReceiverValues(rx)]) + ReadSets(rest, Templates()).value)
  {
    hide ReadSets, ReadData, Fit, RecordBytes;
    FourStrings(rx);
    MinLengths();
    var content := Pad4(ReceiverBody(rx));
    var rows := [ReceiverValues(rx)];
    OneRow(RECEIVER_FIELDS, ReceiverValues(rx));
    DataRoundTrip(RECEIVER_FIELDS, rows, Padding(|ReceiverBody(rx)|));
    DataSet(RECEIVER_ID, content, rest, Templates());
    assert U16(RECEIVER_ID) == RECEIVER_DELIM;
  }

  lemma OneRow(fields: seq<FieldSpec>, values: seq<bytes>)
    requires Fit(fields, values)
    ensures RowsBytes(fields, [values]) == RecordBytes(fields, values)
  {
    hide Fit;
    assert [values][1..] == [];
    assert RecordBytes(fields, values) + [] == RecordBytes(fields, values);
  }

  lemma HeadersRead(rest: bytes)
    ensures ReadSets(RECEIVER_INFO_HEADER + (SENDER_INFO_HEADER + rest), map[]) == ReadSets(rest, Templates())
  {
    ReceiverHeaderIsTemplate();
    SenderHeaderIsTemplate();
    assert forall s :: s in RECEIVER_FIELDS ==> ValidSpec(s);
    assert forall s :: s in SENDER_FIELDS ==> ValidSpec(s);
    TemplateRoundTrip(true, RECEIVER_ID, 1, RECEIVER_FIELDS, 2);
    TemplateRoundTrip(false, SENDER_ID, 0, SENDER_FIELDS, 0);
    assert |RECEIVER_INFO_HEADER| == 44 && |SENDER_INFO_HEADER| == 68;
    var c1 := TemplateBytes(true, RECEIVER_ID, 1, RECEIVER_FIELDS) + Zeros(2);
    var c2 := TemplateBytes(false, SENDER_ID, 0, SENDER_FIELDS) + Zeros(0);
    var t1 := map[RECEIVER_ID := Template(1, RECEIVER_FIELDS)];
    hide *;
    TemplateSet(true, c1, SENDER_INFO_HEADER + rest, map[]);
    TemplateSet(false, c2, rest, t1);
    assert map[] + t1 == t1;
  }

  /** Read as IPFIX, a packet yields the receiver, the timestamp, the sequence, the
      session and every spot, in order. */
  lemma PacketReadsBack(rx: Receiver, spots: seq<Spot>, encoded: seq<bytes>, timestamp: int, sequence: int, session: bytes)
    requires Encodes(spots, encoded) && AllShort(spots) && ShortReceiver(rx)
    requires BuildPacket(rx, encoded, timestamp, sequence, session).Some?
    ensures forall s :: s in spots ==> Encodable(s)
    ensures ReadMessage(BuildPacket(rx, encoded, timestamp, sequence, session).value)
            == Some(Message(timestamp, sequence, session,
                            Tag(RECEIVER_ID, [ReceiverValues(rx)]) + Tag(SENDER_ID, Rows(spots))))
  {
    hide Encodes, AllShort, ShortReceiver, Body, Encodable, Tag, Rows, ReadSets, ReadMessage, U32, U16;
    BodyReads(rx, spots, encoded);
    HeaderReads(Body(rx, encoded), timestamp, sequence, session,
                Tag(RECEIVER_ID, [ReceiverValues(rx)]) + Tag(SENDER_ID, Rows(spots)));
  }

  lemma HeaderReads(body: bytes, timestamp: int, sequence: int, session: bytes, records: seq<DataRecord>)
    requires |session| == 4 && Fits32(timestamp) && Fits32(sequence) && 16 + |body| < 65536
    requires ReadSets(body, map[]) == Some(records)
    ensures ReadMessage([0x00, 0x0A] + U16(16 + |body|) + U32(timestamp) + U32(sequence) + session + body)
            == Some(Message(timestamp, sequence, session, records))
  {
    hide ReadSets, Value, U16, U32;
    U16Value(16 + |body|);
    U32Value(timestamp);
    U32Value(sequence);
    PacketParts(U16(16 + |body|), U32(timestamp), U32(sequence), session, body);
  }

  lemma BodyReads(rx: Receiver, spots: seq<Spot>, encoded: seq<bytes>)
    requires Encodes(spots, encoded) && AllShort(spots) && ShortReceiver(rx) && |Body(rx, encoded)| < 65520
    ensures forall s :: s in spots ==> Encodable(s)
    ensures ReadSets(Body(rx, encoded), map[])
            == Some(Tag(RECEIVER_ID, [ReceiverValues(rx)]) + Tag(SENDER_ID, Rows(spots)))
  {
    JoinedBelow(rx, encoded);
    BodyGlue(rx, encoded);
    hide Encodes, AllShort, ShortReceiver, ReadSets, Joined, Body, Tag, Encodable, SenderBlock, EncodeReceiverInfo,
         RECEIVER_INFO_HEADER, SENDER_INFO_HEADER;
    SenderBlockReads(spots, encoded);
    ReceiverInfoReads(rx, SenderBlock(encoded));
    HeadersRead(EncodeReceiverInfo(rx) + SenderBlock(encoded));
  }

  lemma JoinedBelow(rx: Receiver, encoded: seq<bytes>)
    ensures |Joined(encoded)| <= |Body(rx, encoded)| - 16
  {
    hide Joined, ReceiverBody;
  }

  lemma BodyGlue(rx: Receiver, encoded: seq<bytes>)
    ensures Body(rx, encoded) == RECEIVER_INFO_HEADER + (SENDER_INFO_HEADER + (EncodeReceiverInfo(rx) + SenderBlock(encoded)))
  {
    var h1, h2 := RECEIVER_INFO_HEADER, SENDER_INFO_HEADER;
    hide *;
    Assoc(h1 + h2, EncodeReceiverInfo(rx), SenderBlock(encoded));
    Assoc(h1, h2, EncodeReceiverInfo(rx) + SenderBlock(encoded));
    BodyParts(rx, encoded);
  }

  lemma BodyParts(rx: Receiver, encoded: seq<bytes>)
    ensures Body(rx, encoded) == RECEIVER_INFO_HEADER + SENDER_INFO_HEADER + EncodeReceiverInfo(rx) + SenderBlock(encoded)
  {
    hide EncodeReceiverInfo, SenderBlock;
  }

  lemma PacketParts(length: bytes, time: bytes, sequence: bytes, session: bytes, body: bytes)
    requires |length| == 2 && |time| == |sequence| == |session| == 4
    ensures var b := [0x00, 0x0A] + length + time + sequence + session + body;
      && |b| == 16 + |body| && Value(b[..2]) == 10 && b[2..4] == length && b[4..8] == time && b[8..12] == sequence
      && b[12..16] == session && b[16..] == body
  {
    var b := [0x00, 0x0A] + length + time + sequence + session + body;
    assert b[..2] == [0x00, 0x0A] == U16(10);
    U16Value(10);
  }

  // ---- chunks --------------------------------------------------------------------------------

  function Overhead(rx: Receiver): int {
    16 + |RECEIVER_INFO_HEADER| + |SENDER_INFO_HEADER| + |EncodeReceiverInfo(rx)| + 4
  }

  function RoundUp4(n: nat): nat {
    n + Padding(n)
  }

  function Concat(chunks: seq<seq<bytes>>): seq<bytes> {
    if chunks == [] then [] else Concat(chunks[..|chunks| - 1]) + chunks[|chunks| - 1]
  }

  function Total(chunk: seq<bytes>): nat {
    |Joined(chunk)|
  }

  /** Cut greedily: no chunk is empty, none exceeds the budget but a lone spot's,
      and none could have taken the next one's first spot. */
  ghost predicate Greedy(chunks: seq<seq<bytes>>, budget: int) {
    && (forall i :: 0 <= i < |chunks| ==> chunks[i] != [] && (Total(chunks[i]) <= budget || |chunks[i]| == 1))
    && forall i :: 0 <= i < |chunks| - 1 ==> Total(chunks[i]) + |chunks[i + 1][0]| > budget
  }

  lemma TotalMore(chunk: seq<bytes>, sp: bytes)
    ensures Total(chunk + [sp]) == Total(chunk) + |sp|
  {
    assert (chunk + [sp])[..|chunk|] == chunk;
  }

  lemma ConcatMore(chunks: seq<seq<bytes>>, chunk: seq<bytes>)
    ensures Concat(chunks + [chunk]) == Concat(chunks) + chunk
  {
    assert (chunks + [chunk])[..|chunks|] == chunks;
  }

  /** Chunks closed so far, and the one still open, of the spots seen. */
  ghost predicate Chunking(chunks: seq<seq<bytes>>, chunk: seq<bytes>, seen: seq<bytes>, budget: int) {
    && Concat(chunks) + chunk == seen && Greedy(chunks, budget) && (chunk == [] ==> chunks == [])
    && (Total(chunk) <= budget || |chunk| <= 1)
    && (chunks != [] ==> Total(chunks[|chunks| - 1]) + |chunk[0]| > budget)
  }

  lemma Close(chunks: seq<seq<bytes>>, chunk: seq<bytes>, seen: seq<bytes>, budget: int)
    requires Chunking(chunks, chunk, seen, budget) && chunk != []
    ensures Concat(chunks + [chunk]) == seen && Greedy(chunks + [chunk], budget)
  {
    ConcatMore(chunks, chunk);
    hide Concat, Total;
  }

  lemma NothingOpen(chunks: seq<seq<bytes>>, seen: seq<bytes>, budget: int)
    requires Chunking(chunks, [], seen, budget)
    ensures Concat(chunks) == seen && Greedy(chunks, budget)
  {
    hide Greedy;
  }

  /** A closed chunk that could not have taken the next spot, which opens another. */
  lemma OpenNext(chunks: seq<seq<bytes>>, chunk: seq<bytes>, seen: seq<bytes>, budget: int, sp: bytes)
    requires Concat(chunks + [chunk]) == seen && Greedy(chunks + [chunk], budget) && Total(chunk) + |sp| > budget
    ensures Chunking(chunks + [chunk], [sp], seen + [sp], budget)
  {
    hide Concat, Total, Greedy;
  }

  lemma Grow(chunks: seq<seq<bytes>>, chunk: seq<bytes>, seen: seq<bytes>, budget: int, sp: bytes)
    requires Chunking(chunks, chunk, seen, budget) && (chunk == [] || Total(chunk) + |sp| <= budget)
    ensures Chunking(chunks, chunk + [sp], seen + [sp], budget)
  {
    TotalMore(chunk, sp);
    assert Concat(chunks) + (chunk + [sp]) == Concat(chunks) + chunk + [sp];
    hide Concat, Total, Greedy;
  }

  ghost predicate PacketsFit(rx: Receiver, chunks: seq<seq<bytes>>, maxLen: int) {
    forall i :: 0 <= i < |chunks| ==> 16 + |Body(rx, chunks[i])| <= maxLen
  }

  predicate SpotsFit(encoded: seq<bytes>, budget: int) {
    forall sp :: sp in encoded ==> |sp| <= budget
  }

  /** `chunk_spots`; none when the cap leaves no budget (ValueError). */
  method ChunkSpots(encoded: seq<bytes>, maxLen: int, rx: Receiver) returns (result: Option<seq<seq<bytes>>>)
    ensures result.None? <==> maxLen <= Overhead(rx)
    ensures result.Some? ==> Concat(result.value) == encoded && Greedy(result.value, maxLen - Overhead(rx))
    ensures result.Some? && maxLen % 4 == 0 ==> (PacketsFit(rx, result.value, maxLen) <==> SpotsFit(encoded, maxLen - Overhead(rx)))
  {
    var budget := maxLen - Overhead(rx);
    if budget <= 0 { return None; }
    hide *;
    var chunks: seq<seq<bytes>>, chunk: seq<bytes>, chunkSize := [], [], 0;
    NoSpots(encoded, budget);
    for i := 0 to |encoded|
      invariant Chunking(chunks, chunk, encoded[..i], budget) && chunkSize == Total(chunk)
    {
      var sp := encoded[i];
      TotalMore(chunk, sp);
      TotalOne(sp);
      Prefix(encoded, i);
      if chunk != [] && chunkSize + |sp| > budget {
        Close(chunks, chunk, encoded[..i], budget);
        OpenNext(chunks, chunk, encoded[..i], budget, sp);
        chunks := chunks + [chunk];
        chunk, chunkSize := [sp], |sp|;
      } else {
        Grow(chunks, chunk, encoded[..i], budget, sp);
        chunk := chunk + [sp];
        chunkSize := chunkSize + |sp|;
      }
    }
    AllSeen(encoded);
    if chunk != [] {
      Close(chunks, chunk, encoded, budget);
      chunks := chunks + [chunk];
    } else {
      NothingOpen(chunks, encoded, budget);
    }
    if maxLen % 4 == 0 { PacketsWithinCapIff(rx, chunks, maxLen); }
    result := Some(chunks);
  }

  lemma TotalOne(sp: bytes)
    ensures Total([sp]) == |sp|
  {
    TotalMore([], sp);
    assert [] + [sp] == [sp];
  }

  lemma Prefix(s: seq<bytes>, i: nat)
    requires i < |s|
    ensures s[..i + 1] == s[..i] + [s[i]]
  {
  }

  lemma AllSeen(s: seq<bytes>)
    ensures s[..|s|] == s
  {
  }

  lemma NoSpots(encoded: seq<bytes>, budget: int)
    requires 0 < budget
    ensures Total([]) == 0 && Chunking([], [], encoded[..0], budget)
  {
  }

  lemma RoundUp4Is(n: nat)
    ensures n <= RoundUp4(n) < n + 4 && RoundUp4(n) % 4 == 0
  {
  }

  lemma RoundUp4Order(n: nat, m: nat)
    requires m % 4 == 0
    ensures RoundUp4(n) <= m <==> n <= m
    ensures RoundUp4(m + n) == m + RoundUp4(n)
  {
    hide RoundUp4, Padding;
    RoundUp4Is(n);
    RoundUp4Is(m + n);
    OneMultipleOf4(n, m, RoundUp4(n), RoundUp4(m + n));
  }

  lemma OneMultipleOf4(n: nat, m: nat, r: nat, s: nat)
    requires m % 4 == 0 && r % 4 == 0 && s % 4 == 0 && n <= r < n + 4 && m + n <= s < m + n + 4
    ensures s == m + r && (r <= m <==> n <= m)
  {
    var j, k, l := m / 4, r / 4, s / 4;
    assert m == 4 * j && r == 4 * k && s == 4 * l;
  }

  lemma OverheadBounds(rx: Receiver)
    ensures Overhead(rx) % 4 == 0 && 0 < Overhead(rx) <= 1160
  {
    hide ReceiverBody, Zeros, RoundUp4;
    ReceiverInfoLength(rx);
    assert |RECEIVER_INFO_HEADER| == 44 && |SENDER_INFO_HEADER| == 68;
    hide Padding;
    RoundUp4Is(|ReceiverBody(rx)|);
    RoundUp4Order(|ReceiverBody(rx)|, 1024);
  }

  lemma ReceiverInfoLength(rx: Receiver)
    ensures |EncodeReceiverInfo(rx)| == 4 + RoundUp4(|ReceiverBody(rx)|)
  {
    hide ReceiverBody, Zeros, Padding;
  }

  lemma PacketLength(rx: Receiver, chunk: seq<bytes>)
    ensures 16 + |Body(rx, chunk)| == Overhead(rx) + RoundUp4(Total(chunk))
    ensures |SenderBlock(chunk)| == 4 + RoundUp4(Total(chunk))
  {
    hide Joined, EncodeReceiverInfo;
  }

  function RoundDown4(n: nat): nat {
    n - n % 4
  }

  lemma RoundDown4Is(n: nat, m: nat)
    ensures RoundUp4(n) <= m <==> n <= RoundDown4(m)
  {
    hide RoundUp4, Padding;
    RoundUp4Is(n);
    Fours(n, m, RoundUp4(n));
  }

  lemma Fours(n: nat, m: nat, r: nat)
    requires n <= r < n + 4 && r % 4 == 0
    ensures r <= m <==> n <= m - m % 4
  {
    var j, k := r / 4, m / 4;
    assert r == 4 * j && m == 4 * k + m % 4;
  }

  /** Padding is not in the budget: a packet stays within its cap exactly when its spots
      stay within the budget rounded down to a multiple of 4. */
  lemma PacketWithinCapIff(rx: Receiver, chunk: seq<bytes>, maxLen: nat)
    requires Overhead(rx) < maxLen
    ensures 16 + |Body(rx, chunk)| <= maxLen <==> Total(chunk) <= RoundDown4(maxLen - Overhead(rx))
  {
    hide Overhead, Body, Total, RoundUp4, RoundDown4, Padding;
    OverheadBounds(rx);
    PacketLength(rx, chunk);
    RoundDown4Is(Total(chunk), maxLen - Overhead(rx));
  }

  /** At a cap that is a multiple of 4, the packets of greedy chunks all stay within it
      exactly when no spot alone is over the budget. */
  lemma PacketsWithinCapIff(rx: Receiver, chunks: seq<seq<bytes>>, maxLen: nat)
    requires Overhead(rx) < maxLen && maxLen % 4 == 0 && Greedy(chunks, maxLen - Overhead(rx))
    ensures PacketsFit(rx, chunks, maxLen) <==> SpotsFit(Concat(chunks), maxLen - Overhead(rx))
  {
    OverheadBounds(rx);
    var budget := maxLen - Overhead(rx);
    hide Overhead, Body, Total, Concat;
    assert RoundDown4(budget) == budget;
    forall i | 0 <= i < |chunks|
      ensures (16 + |Body(rx, chunks[i])| <= maxLen) <==> Total(chunks[i]) <= budget
    {
      PacketWithinCapIff(rx, chunks[i], maxLen);
    }
    ChunksWithin(chunks, budget);
  }

  lemma ChunksWithin(chunks: seq<seq<bytes>>, budget: int)
    requires Greedy(chunks, budget)
    ensures (forall i :: 0 <= i < |chunks| ==> Total(chunks[i]) <= budget) <==> SpotsFit(Concat(chunks), budget)
  {
    hide Total, Concat;
    forall i | 0 <= i < |chunks| && Total(chunks[i]) > budget ensures exists sp :: sp in Concat(chunks) && |sp| > budget {
      assert chunks[i] == [chunks[i][0]];
      TotalOne(chunks[i][0]);
      InConcat(chunks, i, chunks[i][0]);
    }
    forall sp | sp in Concat(chunks) ensures exists i :: 0 <= i < |chunks| && |sp| <= Total(chunks[i]) {
      var i := OfChunk(chunks, sp);
      PartOfTotal(chunks[i], sp);
    }
  }

  lemma {:induction false} OfChunk(chunks: seq<seq<bytes>>, sp: bytes) returns (i: nat)
    requires sp in Concat(chunks)
    ensures i < |chunks| && sp in chunks[i]
  {
    i := |chunks| - 1;
    if sp !in chunks[i] { i := OfChunk(chunks[..i], sp); }
  }

  lemma {:induction false} PartOfTotal(chunk: seq<bytes>, sp: bytes)
    requires sp in chunk
    ensures |sp| <= Total(chunk)
  {
    var front, last := chunk[..|chunk| - 1], chunk[|chunk| - 1];
    assert chunk == front + [last];
    TotalMore(front, last);
    if sp != last { PartOfTotal(front, sp); }
  }

  /** A cap that is no multiple of 4 is exceeded by a spot that fills its budget: 15
      octets, a one-octet callsign and nothing else, make a packet one octet over. */
  lemma OddCapIsExceeded(rx: Receiver, frequency: int, snr: int, timestamp: int)
    requires Fits32(frequency) && Fits32(timestamp)
    ensures var sp := EncodeSpot(Spot([0x41], frequency, snr, [], [], timestamp, [])).value;
      && |sp| == 15 && Greedy([[sp]], 15) && Concat([[sp]]) == [sp]
      && 16 + |Body(rx, [sp])| == Overhead(rx) + 16
  {
    var sp := EncodeSpot(Spot([0x41], frequency, snr, [], [], timestamp, [])).value;
    assert |sp| == 15;
    hide EncodeSpot, Overhead, Body;
    TotalOne(sp);
    PacketLength(rx, [sp]);
    assert RoundUp4(15) == 16;
    ConcatMore([], [sp]);
    assert [] + [[sp]] == [[sp]] && Concat([]) == [];
  }

  /** For any cap: the packet stays within the cap rounded up to a multiple of 4
      exactly when its spots stay within the budget rounded up. */
  lemma PacketWithinRoundedCapIff(rx: Receiver, chunk: seq<bytes>, maxLen: nat)
    requires Overhead(rx) < maxLen
    ensures 16 + |Body(rx, chunk)| <= RoundUp4(maxLen) <==> Total(chunk) <= RoundUp4(maxLen - Overhead(rx))
  {
    hide Overhead, Body, Total, RoundUp4, Padding;
    OverheadBounds(rx);
    PacketLength(rx, chunk);
    var o := Overhead(rx);
    RoundUp4Is(maxLen - o);
    RoundUp4Order(maxLen - o, o);
    RoundUp4Order(Total(chunk), RoundUp4(maxLen - o));
  }

  /** ... so a greedy chunk exceeds that only as a lone spot over the budget. */
  lemma GreedyWithinCap(rx: Receiver, chunks: seq<seq<bytes>>, maxLen: nat, i: nat)
    requires Overhead(rx) < maxLen && Greedy(chunks, maxLen - Overhead(rx)) && i < |chunks|
    ensures 16 + |Body(rx, chunks[i])| <= RoundUp4(maxLen) || (|chunks[i]| == 1 && |chunks[i][0]| > maxLen - Overhead(rx))
  {
    PacketWithinRoundedCapIff(rx, chunks[i], maxLen);
    if |chunks[i]| == 1 {
      TotalMore([], chunks[i][0]);
      assert [] + [chunks[i][0]] == chunks[i];
    }
  }

  /** At the TCP cap every packet of encoded spots builds, stays within the cap, and
      both two-octet length fields are exact. */
  lemma TcpPacketsFit(rx: Receiver, spots: seq<Spot>, encoded: seq<bytes>, chunks: seq<seq<bytes>>, i: nat, timestamp: int,
                      sequence: int, session: bytes)
    requires Encodes(spots, encoded) && Concat(chunks) == encoded && i < |chunks|
    requires Greedy(chunks, MAX_PACKET_LEN_TCP - Overhead(rx))
    requires |session| == 4 && Fits32(timestamp) && Fits32(sequence)
    ensures Overhead(rx) < MAX_PACKET_LEN_TCP
    ensures BuildPacket(rx, chunks[i], timestamp, sequence, session).Some?
    ensures var packet := BuildPacket(rx, chunks[i], timestamp, sequence, session).value;
      |packet| <= MAX_PACKET_LEN_TCP && Value(packet[2..4]) == |packet|
      && Value(SenderBlock(chunks[i])[2..4]) == |SenderBlock(chunks[i])|
  {
    OverheadBounds(rx);
    hide Overhead, Body, Total, RoundUp4, Padding, SenderBlock, Encodes, Greedy, Concat, EncodeReceiverInfo, U16, U32, Value;
    var chunk := chunks[i];
    ShortChunk(spots, encoded, chunks, i, MAX_PACKET_LEN_TCP - Overhead(rx));
    assert RoundDown4(MAX_PACKET_LEN_TCP - Overhead(rx)) == MAX_PACKET_LEN_TCP - Overhead(rx);
    PacketWithinCapIff(rx, chunk, MAX_PACKET_LEN_TCP);
    PacketLength(rx, chunk);
    U16Value(16 + |Body(rx, chunk)|);
    U16Value(|SenderBlock(chunk)|);
    PacketParts(U16(16 + |Body(rx, chunk)|), U32(timestamp), U32(sequence), session, Body(rx, chunk));
    SenderBlockLength(chunk);
  }

  lemma SenderBlockLength(chunk: seq<bytes>)
    ensures SenderBlock(chunk)[2..4] == U16(|SenderBlock(chunk)|) && |SenderBlock(chunk)| >= 4
  {
    hide Joined, U16;
  }

  /** An encoded spot is shorter than any TCP budget, so no chunk exceeds it. */
  lemma ShortChunk(spots: seq<Spot>, encoded: seq<bytes>, chunks: seq<seq<bytes>>, i: nat, budget: int)
    requires Encodes(spots, encoded) && Concat(chunks) == encoded && i < |chunks| && Greedy(chunks, budget) && budget >= 1034
    ensures Total(chunks[i]) <= budget
  {
    hide Total, Concat, EncodeSpot;
    if |chunks[i]| == 1 {
      var sp := chunks[i][0];
      assert chunks[i] == [sp];
      TotalOne(sp);
      InConcat(chunks, i, sp);
      EncodedLength(spots, encoded, sp);
    }
  }

  lemma EncodedLength(spots: seq<Spot>, encoded: seq<bytes>, sp: bytes)
    requires Encodes(spots, encoded) && sp in encoded
    ensures |sp| <= 1034
  {
    hide EncodeSpot;
    var j :| 0 <= j < |encoded| && encoded[j] == sp;
    SpotLength(spots[j]);
  }

  lemma {:induction false} InConcat(chunks: seq<seq<bytes>>, i: nat, sp: bytes)
    requires i < |chunks| && sp in chunks[i]
    ensures sp in Concat(chunks)
  {
    if i < |chunks| - 1 { InConcat(chunks[..|chunks| - 1], i, sp); }
  }
}
