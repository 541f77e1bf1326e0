/** The PSKReporter transport's retry blob and its running sequence number
    (transports/pskreporter.py). */
module PskTransport {
  import opened Cursors
  import opened Ipfix
  import opened PskCodec

  // ---- the retry blob -----------------------------------------------------------

  /** `_u16(len(b)) + b`; none when the length does not fit (OverflowError). */
  predicate Fits16(b: bytes) {
    |b| < 65536
  }

  function Prefixed(b: bytes): bytes {
    U16(|b|) + b
  }

  function ReceiverBlob(rx: Receiver): bytes {
    Prefixed(rx.callsign) + Prefixed(rx.locator) + Prefixed(rx.software) + Prefixed(rx.antenna)
  }

  function SpotBlobs(encoded: seq<bytes>): bytes {
    if encoded == [] then [] else Prefixed(encoded[0]) + SpotBlobs(encoded[1..])
  }

  ghost predicate Serializable(rx: Receiver, encoded: seq<bytes>) {
    && Fits16(rx.callsign) && Fits16(rx.locator) && Fits16(rx.software) && Fits16(rx.antenna)
    && Fits16(ReceiverBlob(rx)) && (forall b :: b in encoded ==> Fits16(b)) && |encoded| < 4294967296
  }

  /** What `serialize_for_retry` writes. */
  function RetryBlob(rx: Receiver, encoded: seq<bytes>): bytes {
    Prefixed(ReceiverBlob(rx)) + U32(|encoded|) + SpotBlobs(encoded)
  }

  lemma {:induction false} SpotBlobsMore(encoded: seq<bytes>, b: bytes)
    ensures SpotBlobs(encoded + [b]) == SpotBlobs(encoded) + Prefixed(b)
  {
    if encoded == [] {
      assert [] + [b] == [b] && [b][1..] == [];
      assert Prefixed(b) + [] == [] + Prefixed(b);
    } else {
      SpotBlobsMore(encoded[1..], b);
      assert (encoded + [b])[1..] == encoded[1..] + [b];
      Assoc(Prefixed(encoded[0]), SpotBlobs(encoded[1..]), Prefixed(b));
    }
  }

  /** `serialize_for_retry`, after the records became spots. */
  method SerializeForRetry(rx: Receiver, encoded: seq<bytes>) returns (blob: Option<bytes>)
    ensures blob.Some? <==> Serializable(rx, encoded)
    ensures blob.Some? ==> blob.value == RetryBlob(rx, encoded)
  {
    if !(Fits16(rx.callsign) && Fits16(rx.locator) && Fits16(rx.software) && Fits16(rx.antenna)
         && Fits16(ReceiverBlob(rx)) && |encoded| < 4294967296) {
      return None;
    }
    var out := Prefixed(ReceiverBlob(rx)) + U32(|encoded|);
    ghost var head := out;
    assert out + [] == out;
    for i := 0 to |encoded|
      invariant out == head + SpotBlobs(encoded[..i])
      invariant forall j :: 0 <= j < i ==> Fits16(encoded[j])
    {
      hide ReceiverBlob, SpotBlobs, U16, U32, Prefixed;
      if !Fits16(encoded[i]) { return None; }
      assert encoded[..i + 1] == encoded[..i] + [encoded[i]];
      SpotBlobsMore(encoded[..i], encoded[i]);
      Assoc(head, SpotBlobs(encoded[..i]), Prefixed(encoded[i]));
      out := out + Prefixed(encoded[i]);
    }
    assert encoded[..|encoded|] == encoded;
    return Some(out);
  }

  /** A Python slice: it stops at the end of the blob. */
  function Slice(b: bytes, from: nat, length: nat): bytes {
    if from >= |b| then [] else if from + length > |b| then b[from..] else b[from..from + length]
  }

  /** `n` length-prefixed blobs from an offset on. */
  function BlobsAt(b: bytes, from: nat, n: nat): seq<bytes>
    decreases n
  {
    if n == 0 then []
    else
      var length := Value(Slice(b, from, 2));
      [Slice(b, from + 2, length)] + BlobsAt(b, from + 2 + length, n - 1)
  }

  /** At most `n` fields, while any octet is left. */
  function FieldsAt(b: bytes, from: nat, n: nat): seq<bytes>
    decreases n
  {
    if n == 0 || from >= |b| then []
    else
      var length := Value(Slice(b, from, 2));
      [Slice(b, from + 2, length)] + FieldsAt(b, from + 2 + length, n - 1)
  }

  function ReceiverOf(fields: seq<bytes>): Receiver {
    Receiver(if |fields| > 0 then fields[0] else [], if |fields| > 1 then fields[1] else [],
             if |fields| > 2 then fields[2] else [], if |fields| > 3 then fields[3] else [])
  }

  lemma Shift(done: seq<bytes>, next: bytes, rest: seq<bytes>)
    ensures done + ([next] + rest) == done + [next] + rest
  {
  }

  lemma Nothing(done: seq<bytes>)
    ensures done + [] == done && [] + done == done
  {
  }

  lemma BlobsStep(done: seq<bytes>, b: bytes, at: nat, n: nat)
    requires 0 < n
    ensures var length := Value(Slice(b, at, 2));
      done + BlobsAt(b, at, n) == done + [Slice(b, at + 2, length)] + BlobsAt(b, at + 2 + length, n - 1)
  {
    hide Value, Slice;
    var length := Value(Slice(b, at, 2));
    Shift(done, Slice(b, at + 2, length), BlobsAt(b, at + 2 + length, n - 1));
  }

  lemma FieldsStep(done: seq<bytes>, b: bytes, at: nat, n: nat)
    requires 0 < n && at < |b|
    ensures var length := Value(Slice(b, at, 2));
      done + FieldsAt(b, at, n) == done + [Slice(b, at + 2, length)] + FieldsAt(b, at + 2 + length, n - 1)
  {
    hide Value, Slice;
    var length := Value(Slice(b, at, 2));
    Shift(done, Slice(b, at + 2, length), FieldsAt(b, at + 2 + length, n - 1));
  }

  lemma BlobsEnd(done: seq<bytes>, b: bytes, at: nat)
    ensures done + BlobsAt(b, at, 0) == done
  {
  }

  lemma FieldsEnd(done: seq<bytes>, b: bytes, at: nat, n: nat)
    requires n == 0 || at >= |b|
    ensures done + FieldsAt(b, at, n) == done
  {
  }

  /** `_decode_receiver_blob`. */
  method DecodeReceiverBlob(blob: bytes) returns (rx: Receiver)
    ensures rx == ReceiverOf(FieldsAt(blob, 0, 4))
  {
    hide *;
    var offset: nat, fields: seq<bytes> := 0, [];
    Nothing(FieldsAt(blob, 0, 4));
    while offset < |blob| && |fields| < 4
      invariant |fields| <= 4
      invariant fields + FieldsAt(blob, offset, 4 - |fields|) == FieldsAt(blob, 0, 4)
      decreases 4 - |fields|
    {
      FieldsStep(fields, blob, offset, 4 - |fields|);
      var length := Value(Slice(blob, offset, 2));
      offset := offset + 2;
      fields := fields + [Slice(blob, offset, length)];
      offset := offset + length;
    }
    FieldsEnd(fields, blob, offset, 4 - |fields|);
    rx := ReceiverOf(fields);
  }

  /** The spots of a blob, in `replay`. */
  method DecodeSpots(blob: bytes, from: nat, n: nat) returns (encoded: seq<bytes>)
    ensures encoded == BlobsAt(blob, from, n)
  {
    hide *;
    var offset := from;
    encoded := [];
    Nothing(BlobsAt(blob, from, n));
    for i := 0 to n
      invariant |encoded| == i && encoded + BlobsAt(blob, offset, n - i) == BlobsAt(blob, from, n)
    {
      BlobsStep(encoded, blob, offset, n - i);
      var length := Value(Slice(blob, offset, 2));
      offset := offset + 2;
      encoded := encoded + [Slice(blob, offset, length)];
      offset := offset + length;
    }
    BlobsEnd(encoded, blob, offset);
  }

  /** The decoding in `replay`. */
  method DecodeRetryBlob(blob: bytes) returns (rx: Receiver, encoded: seq<bytes>)
    ensures (rx, encoded) == Decoded(blob)
  {
    hide Value, Slice, FieldsAt, BlobsAt;
    var rxLen := Value(Slice(blob, 0, 2));
    var offset := 2;
    rx := DecodeReceiverBlob(Slice(blob, offset, rxLen));
    offset := offset + rxLen;
    var n := Value(Slice(blob, offset, 4));
    offset := offset + 4;
    encoded := DecodeSpots(blob, offset, n);
  }

  /** What a blob stands for. */
  function Decoded(blob: bytes): (Receiver, seq<bytes>) {
    var rxLen := Value(Slice(blob, 0, 2));
    (ReceiverOf(FieldsAt(Slice(blob, 2, rxLen), 0, 4)), BlobsAt(blob, 2 + rxLen + 4, Value(Slice(blob, 2 + rxLen, 4))))
  }

  lemma PrefixedAt(before: bytes, b: bytes, after: bytes)
    requires Fits16(b)
    ensures var whole := before + Prefixed(b) + after; var at := |before|;
      && Value(Slice(whole, at, 2)) == |b| && Slice(whole, at + 2, |b|) == b
      && at + 2 + |b| == |before + Prefixed(b)| <= |whole|
  {
    U16Value(|b|);
    var whole := before + Prefixed(b) + after;
    assert Slice(whole, |before|, 2) == U16(|b|);
    hide U16, Value;
  }

  lemma {:induction false} BlobsRoundTrip(before: bytes, encoded: seq<bytes>)
    requires forall b :: b in encoded ==> Fits16(b)
    decreases |encoded|
    ensures BlobsAt(before + SpotBlobs(encoded), |before|, |encoded|) == encoded
  {
    if encoded != [] {
      var b, rest := encoded[0], SpotBlobs(encoded[1..]);
      Assoc(before, Prefixed(b), rest);
      hide Fits16, SpotBlobs, Prefixed, Slice, Value;
      PrefixedAt(before, b, rest);
      BlobsRoundTrip(before + Prefixed(b), encoded[1..]);
      assert encoded == [b] + encoded[1..];
    }
  }

  lemma FieldsRoundTrip(rx: Receiver)
    requires Serializable(rx, [])
    ensures FieldsAt(ReceiverBlob(rx), 0, 4) == [rx.callsign, rx.locator, rx.software, rx.antenna]
  {
    var a, b, c, d := Prefixed(rx.callsign), Prefixed(rx.locator), Prefixed(rx.software), Prefixed(rx.antenna);
    var blob := ReceiverBlob(rx);
    hide Slice, Value;
    assert blob == [] + a + (b + c + d) && blob == a + b + (c + d) && blob == a + b + c + d && blob == (a + b + c) + d + [];
    PrefixedAt([], rx.callsign, b + c + d);
    PrefixedAt(a, rx.locator, c + d);
    PrefixedAt(a + b, rx.software, d);
    PrefixedAt(a + b + c, rx.antenna, []);
    assert FieldsAt(blob, |blob|, 0) == [];
    assert FieldsAt(blob, |a + b + c|, 1) == [rx.antenna];
    assert FieldsAt(blob, |a + b|, 2) == [rx.software, rx.antenna];
    assert FieldsAt(blob, |a|, 3) == [rx.locator, rx.software, rx.antenna];
  }

  lemma CountAt(head: bytes, n: nat, tail: bytes)
    requires n < 4294967296
    ensures Value(Slice(head + (U32(n) + tail), |head|, 4)) == n
    ensures head + (U32(n) + tail) == head + U32(n) + tail && |head + U32(n)| == |head| + 4
  {
    U32Value(n);
    assert Slice(head + (U32(n) + tail), |head|, 4) == U32(n);
    hide U32, Value;
  }

  /** A replay sees exactly the receiver and the encoded spots that were queued, of
      any length that could be serialized. */
  lemma RetryRoundTrip(rx: Receiver, encoded: seq<bytes>)
    requires Serializable(rx, encoded)
    ensures Decoded(RetryBlob(rx, encoded)) == (rx, encoded)
  {
    hide *;
    var head, tail := ReceiverBlob(rx), SpotBlobs(encoded);
    SerializableParts(rx, encoded);
    FieldsRoundTrip(rx);
    CountAt(Prefixed(head), |encoded|, tail);
    PrefixedFirst(head, U32(|encoded|) + tail);
    BlobsRoundTrip(Prefixed(head) + U32(|encoded|), encoded);
    DecodedParts(RetryBlob(rx, encoded), rx, head, encoded);
  }

  lemma SerializableParts(rx: Receiver, encoded: seq<bytes>)
    requires Serializable(rx, encoded)
    ensures Serializable(rx, []) && Fits16(ReceiverBlob(rx)) && |encoded| < 4294967296
    ensures forall b :: b in encoded ==> Fits16(b)
    ensures RetryBlob(rx, encoded) == Prefixed(ReceiverBlob(rx)) + U32(|encoded|) + SpotBlobs(encoded)
  {
    hide ReceiverBlob, SpotBlobs, U32, U16;
  }

  lemma DecodedParts(blob: bytes, rx: Receiver, head: bytes, encoded: seq<bytes>)
    requires Value(Slice(blob, 0, 2)) == |head| && Slice(blob, 2, |head|) == head
    requires FieldsAt(head, 0, 4) == [rx.callsign, rx.locator, rx.software, rx.antenna]
    requires Value(Slice(blob, |head| + 2, 4)) == |encoded| && BlobsAt(blob, |head| + 6, |encoded|) == encoded
    ensures Decoded(blob) == (rx, encoded)
  {
    hide Value, Slice, FieldsAt, BlobsAt;
  }

  lemma PrefixedFirst(b: bytes, after: bytes)
    requires Fits16(b)
    ensures var whole := Prefixed(b) + after;
      Value(Slice(whole, 0, 2)) == |b| && Slice(whole, 2, |b|) == b && |Prefixed(b)| == |b| + 2
  {
    PrefixedAt([], b, after);
    assert [] + Prefixed(b) + after == Prefixed(b) + after;
  }

  // ---- sessions and sequence numbers ------------------------------------------------------------

  datatype Conn = Conn(number: nat, session: bytes, sequence: nat)

  /** One packet the socket took. */
  datatype Sent = Sent(connection: nat, session: bytes, chunk: seq<bytes>, packet: bytes)

  datatype Reply = Delivered | Failed | Raised

  /** Spots sent so far on one connection. */
  function SpotsOn(sent: seq<Sent>, connection: nat): nat {
    if sent == [] then 0
    else SpotsOn(sent[..|sent| - 1], connection)
         + if sent[|sent| - 1].connection == connection then |sent[|sent| - 1].chunk| else 0
  }

  function Chunks(sent: seq<Sent>): seq<seq<bytes>> {
    seq(|sent|, i requires 0 <= i < |sent| => sent[i].chunk)
  }

  /** A packet built for its receiver, with the number of spots its connection had
      carried before it as its sequence. */
  ghost predicate Numbered(sent: seq<Sent>, i: nat)
    requires i < |sent|
  {
    exists rx, time :: BuildPacket(rx, sent[i].chunk, time, SpotsOn(sent[..i], sent[i].connection), sent[i].session)
                       == Some(sent[i].packet)
  }

  class Transport {
    const maxPacketLen: int
    const maxSendAttempts: int
    var conn: Option<Conn>
    var connections: nat
    ghost var sent: seq<Sent>

    ghost predicate Valid()
      reads this
    {
      && (forall i :: 0 <= i < |sent| ==> Numbered(sent, i) && sent[i].connection < connections)
      && (conn.Some? ==> conn.value.number < connections && |conn.value.session| == 4
                         && conn.value.sequence == SpotsOn(sent, conn.value.number))
    }

    constructor (maxPacketLen: int, maxSendAttempts: int)
      ensures Valid() && sent == [] && this.maxPacketLen == maxPacketLen
    {
      this.maxPacketLen, this.maxSendAttempts := maxPacketLen, maxSendAttempts;
      conn, connections, sent := None, 0, [];
    }

    /** The open connection, or a new one: a random session, counting from 0. It may fail. */
    method ConnectIfNeeded() returns (ok: bool)
      requires Valid()
      modifies this`conn, this`connections
      ensures Valid()
      ensures old(conn).Some? || !ok ==> conn == old(conn) && connections == old(connections) && (ok <==> conn.Some?)
      ensures old(conn).None? && ok ==>
        && conn.Some? && conn.value.number == old(connections) && connections == old(connections) + 1
        && conn.value.sequence == 0 && SpotsOn(sent, conn.value.number) == 0 && |conn.value.session| == 4
    {
      if conn.Some? { return true; }
      ok := *;
      if ok {
        var session: bytes := [0, 0, 0, 0];
        var random: bytes := *;
        if |random| == 4 { session := random; }
        NewConnection(sent, connections);
        conn := Some(Conn(connections, session, 0));
        connections := connections + 1;
      }
    }

    /** One try on an open connection; a failure drops it. */
    method TrySend(chunk: seq<bytes>, rx: Receiver) returns (reply: Reply)
      requires Valid() && conn.Some?
      modifies this`conn, this`sent
      ensures Valid()
      ensures if reply == Delivered then Took(old(sent), sent, chunk) else sent == old(sent)
    {
      hide BuildPacket, SpotsOn;
      var c, time: int := conn.value, *;
      var packet := BuildPacket(rx, chunk, time, c.sequence, c.session);
      if packet.None? { return Raised; }
      var sendFails: bool := *;
      if sendFails {
        conn := None;
        return Failed;
      }
      OneMoreSent(sent, Sent(c.number, c.session, chunk, packet.value), rx, time);
      sent := sent + [Sent(c.number, c.session, chunk, packet.value)];
      conn := Some(c.(sequence := c.sequence + |chunk|));
      return Delivered;
    }

    /** `_send_one_packet_locked`. */
    method SendOnePacket(chunk: seq<bytes>, rx: Receiver) returns (reply: Reply)
      requires Valid()
      modifies this
      ensures Valid()
      ensures if reply == Delivered then Took(old(sent), sent, chunk) else sent == old(sent)
    {
      hide Numbered, SpotsOn;
      var attempt := 0;
      while attempt < maxSendAttempts
        invariant Valid() && sent == old(sent)
      {
        var connected := ConnectIfNeeded();
        if connected {
          reply := TrySend(chunk, rx);
          if reply != Failed { return; }
        } else {
          conn := None;
        }
        attempt := attempt + 1;
      }
      return Failed;
    }

    /** `_send_encoded_chunks`: every spot once and in order among the packets the
        sockets took, or a first part of them. */
    method SendEncodedChunks(encoded: seq<bytes>, rx: Receiver) returns (reply: Reply)
      requires Valid()
      modifies this
      ensures Valid() && |old(sent)| <= |sent| && sent[..|old(sent)|] == old(sent)
      ensures var taken := Concat(Chunks(sent[|old(sent)|..]));
        taken <= encoded && (reply == Delivered ==> taken == encoded)
    {
      var chunks := ChunkSpots(encoded, maxPacketLen, rx);
      if chunks.None? { return Raised; }
      ghost var sent0 := sent;
      var cs := chunks.value;
      hide *;
      ProgressStart(sent0, cs);
      for i := 0 to |cs|
        invariant Valid() && Progress(sent0, sent, cs, i)
      {
        ghost var before := sent;
        reply := SendOnePacket(cs[i], rx);
        if reply != Delivered {
          ProgressEnd(sent0, sent, cs, i);
          return;
        }
        ProgressMore(sent0, before, sent, cs, i);
      }
      ProgressEnd(sent0, sent, cs, |cs|);
      reply := Delivered;
    }
  }

  ghost predicate Took(before: seq<Sent>, after: seq<Sent>, chunk: seq<bytes>) {
    |after| == |before| + 1 && after[..|before|] == before && after[|before|].chunk == chunk
  }

  /** Since `sent0`, the first `i` chunks were taken. */
  ghost predicate Progress(sent0: seq<Sent>, sent: seq<Sent>, cs: seq<seq<bytes>>, i: nat) {
    |sent| == |sent0| + i && i <= |cs| && sent[..|sent0|] == sent0 && Chunks(sent[|sent0|..]) == cs[..i]
  }

  lemma ProgressStart(sent0: seq<Sent>, cs: seq<seq<bytes>>)
    ensures Progress(sent0, sent0, cs, 0)
  {
  }

  lemma ProgressMore(sent0: seq<Sent>, before: seq<Sent>, after: seq<Sent>, cs: seq<seq<bytes>>, i: nat)
    requires Progress(sent0, before, cs, i) && i < |cs| && Took(before, after, cs[i])
    ensures Progress(sent0, after, cs, i + 1)
  {
    var old_, new_ := before[|sent0|..], after[|sent0|..];
    assert new_[..i] == old_;
    forall j | 0 <= j < i + 1 ensures Chunks(new_)[j] == cs[..i + 1][j] {
      if j < i { assert new_[j] == old_[j] && Chunks(old_)[j] == cs[..i][j]; }
    }
  }

  lemma ProgressEnd(sent0: seq<Sent>, sent: seq<Sent>, cs: seq<seq<bytes>>, i: nat)
    requires Progress(sent0, sent, cs, i)
    ensures |sent0| <= |sent| && sent[..|sent0|] == sent0
    ensures Concat(Chunks(sent[|sent0|..])) <= Concat(cs)
    ensures i == |cs| ==> Concat(Chunks(sent[|sent0|..])) == Concat(cs)
  {
    ConcatPrefix(cs, i);
    assert cs[..|cs|] == cs;
  }

  lemma {:induction false} ConcatPrefix(cs: seq<seq<bytes>>, i: nat)
    requires i <= |cs|
    ensures Concat(cs[..i]) <= Concat(cs)
  {
    if i == |cs| {
      assert cs[..i] == cs;
    } else {
      ConcatPrefix(cs[..|cs| - 1], i);
      assert cs[..|cs| - 1][..i] == cs[..i];
    }
  }

  lemma NewConnection(sent: seq<Sent>, number: nat)
    requires forall i :: 0 <= i < |sent| ==> sent[i].connection < number
    ensures SpotsOn(sent, number) == 0
  {
    if sent != [] { NewConnection(sent[..|sent| - 1], number); }
  }

  lemma OneMoreSent(sent: seq<Sent>, s: Sent, rx: Receiver, time: int)
    requires forall i :: 0 <= i < |sent| ==> Numbered(sent, i)
    requires BuildPacket(rx, s.chunk, time, SpotsOn(sent, s.connection), s.session) == Some(s.packet)
    ensures forall i :: 0 <= i < |sent + [s]| ==> Numbered(sent + [s], i)
    ensures SpotsOn(sent + [s], s.connection) == SpotsOn(sent, s.connection) + |s.chunk|
  {
    hide BuildPacket;
    var all := sent + [s];
    assert all[..|sent|] == sent;
    forall i | 0 <= i < |all| ensures Numbered(all, i) {
      if i < |sent| {
        assert Numbered(sent, i) && all[..i] == sent[..i] && all[i] == sent[i];
      } else {
        assert all[i] == s && all[..i] == sent;
      }
    }
  }
}
