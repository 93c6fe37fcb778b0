/** The framed file format: magic, version, kind, length, payload, checksum, end magic. */
module Frame {
  import opened Bytes

  const MAGIC: seq<Byte> := [0x56, 0x56, 0x45, 0x43]
  const END_MAGIC: seq<Byte> := [0x56, 0x45, 0x4E, 0x44]
  const HEADER_LEN := 20
  const FOOTER_LEN := 8

  type Checksum = seq<Byte> -> nat

  ghost predicate Is32Bit(crc: Checksum) {
    forall bs :: crc(bs) < TWO32
  }

  datatype Parsed =
    | Frame(formatVersion: nat, kind: nat, payload: seq<Byte>)
    | TooShort
    | BadMagic
    | LengthMismatch
    | MissingEndMagic
    | ChecksumMismatch

  function Header(version: nat, kind: nat, len: nat): (h: seq<Byte>)
    ensures |h| == HEADER_LEN
  {
    MAGIC + ToLe(version, 4) + ToLe(kind, 4) + ToLe(len, 8)
  }

  /** The bytes `write_atomic` puts in the file. */
  function FrameBytes(crc: Checksum, version: nat, kind: nat, payload: seq<Byte>): (bs: seq<Byte>)
    ensures |bs| == HEADER_LEN + |payload| + FOOTER_LEN
  {
    var body := Header(version, kind, |payload|) + payload;
    body + ToLe(crc(body), 4) + END_MAGIC
  }

  /** `u64` addition wraps. */
  function AddU64(a: nat, b: nat): nat {
    if a + b < TWO64 then a + b else a + b - TWO64
  }

  /** A wrapped sum never lets a frame through whose payload would run past the file. */
  lemma {:induction false} WrapIsHarmless(bytes: seq<Byte>)
    requires HEADER_LEN + FOOTER_LEN <= |bytes| < TWO64
    ensures var len := FromLe(bytes[12..20]);
            |bytes| == AddU64(AddU64(HEADER_LEN, len), FOOTER_LEN) <==> |bytes| == HEADER_LEN + len + FOOTER_LEN
  {
    PowValues();
    FromLeRoundTrip(bytes[12..20]);
  }

  function ParseFramed(crc: Checksum, bytes: seq<Byte>): Parsed
    requires |bytes| < TWO64
  {
    if |bytes| < HEADER_LEN + FOOTER_LEN then TooShort
    else if bytes[..4] != MAGIC then BadMagic
    else
      var payloadLen := FromLe(bytes[12..20]);
      var expectedTotal := AddU64(AddU64(HEADER_LEN, payloadLen), FOOTER_LEN);
      if |bytes| != expectedTotal then LengthMismatch
      else
        var payloadEnd := HEADER_LEN + payloadLen;
        WrapIsHarmless(bytes);
        if bytes[payloadEnd + 4..payloadEnd + 8] != END_MAGIC then MissingEndMagic
        else if crc(bytes[..payloadEnd]) != FromLe(bytes[payloadEnd..payloadEnd + 4]) then ChecksumMismatch
        else Frame(FromLe(bytes[4..8]), FromLe(bytes[8..12]), bytes[HEADER_LEN..payloadEnd])
  }

  lemma {:induction false} HeaderFields(version: nat, kind: nat, len: nat, rest: seq<Byte>)
    requires version < TWO32 && kind < TWO32 && len < TWO64
    ensures var bytes := Header(version, kind, len) + rest;
            && bytes[..4] == MAGIC && FromLe(bytes[4..8]) == version && FromLe(bytes[8..12]) == kind
            && FromLe(bytes[12..20]) == len
  {
    var bytes := Header(version, kind, len) + rest;
    PowValues();
    ToLeRoundTrip(version, 4);
    ToLeRoundTrip(kind, 4);
    ToLeRoundTrip(len, 8);
    assert bytes[..4] == MAGIC;
    assert bytes[4..8] == ToLe(version, 4);
    assert bytes[8..12] == ToLe(kind, 4);
    assert bytes[12..20] == ToLe(len, 8);
  }

  /** Reading back a written frame gives what was written. */
  lemma {:induction false} RoundTrip(crc: Checksum, version: nat, kind: nat, payload: seq<Byte>)
    requires Is32Bit(crc) && version < TWO32 && kind < TWO32
    requires |payload| + HEADER_LEN + FOOTER_LEN < TWO64
    ensures ParseFramed(crc, FrameBytes(crc, version, kind, payload)) == Frame(version, kind, payload)
  {
    var bytes := FrameBytes(crc, version, kind, payload);
    var body := Header(version, kind, |payload|) + payload;
    var end := HEADER_LEN + |payload|;
    HeaderFields(version, kind, |payload|, payload + ToLe(crc(body), 4) + END_MAGIC);
    assert bytes == Header(version, kind, |payload|) + (payload + ToLe(crc(body), 4) + END_MAGIC);
    PowValues();
    ToLeRoundTrip(crc(body), 4);
    assert bytes[..end] == body;
    assert bytes[end..end + 4] == ToLe(crc(body), 4);
    assert bytes[end + 4..end + 8] == END_MAGIC;
    assert bytes[HEADER_LEN..end] == payload;
  }

  /** Any bytes the parser accepts are exactly the frame of what it returns. */
  lemma {:induction false} AcceptsOnlyFrames(crc: Checksum, bytes: seq<Byte>)
    requires |bytes| < TWO64 && ParseFramed(crc, bytes).Frame?
    ensures var f := ParseFramed(crc, bytes);
            && f.formatVersion < TWO32 && f.kind < TWO32
            && bytes == FrameBytes(crc, f.formatVersion, f.kind, f.payload)
  {
    hide FromLe, ToLe;
    var f := ParseFramed(crc, bytes);
    var end := HEADER_LEN + |f.payload|;
    WrapIsHarmless(bytes);
    PowValues();
    FromLeRoundTrip(bytes[4..8]);
    FromLeRoundTrip(bytes[8..12]);
    FromLeRoundTrip(bytes[12..20]);
    FromLeRoundTrip(bytes[end..end + 4]);
    assert bytes[..20] == bytes[..4] + bytes[4..8] + bytes[8..12] + bytes[12..20];
    assert bytes[..end] == bytes[..20] + bytes[20..end];
    assert bytes == bytes[..end] + bytes[end..end + 4] + bytes[end + 4..end + 8];
  }

  /** Of all the bytes that start like a frame or that a frame starts, only the frame itself is
      accepted: every proper prefix and every extension is rejected. */
  lemma {:induction false} OnlyTheWholeFrame(crc: Checksum, version: nat, kind: nat, payload: seq<Byte>,
                                             other: seq<Byte>)
    requires Is32Bit(crc) && version < TWO32 && kind < TWO32
    requires |payload| + HEADER_LEN + FOOTER_LEN < TWO64 && |other| < TWO64
    requires other <= FrameBytes(crc, version, kind, payload) || FrameBytes(crc, version, kind, payload) <= other
    ensures ParseFramed(crc, other).Frame? <==> other == FrameBytes(crc, version, kind, payload)
  {
    hide FromLe, ToLe;
    var bytes := FrameBytes(crc, version, kind, payload);
    RoundTrip(crc, version, kind, payload);
    if other != bytes && |other| >= HEADER_LEN + FOOTER_LEN {
      var body := Header(version, kind, |payload|) + payload;
      HeaderFields(version, kind, |payload|, payload + ToLe(crc(body), 4) + END_MAGIC);
      assert bytes == Header(version, kind, |payload|) + (payload + ToLe(crc(body), 4) + END_MAGIC);
      assert other[12..20] == bytes[12..20];
    }
  }
}
