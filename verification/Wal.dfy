/** The append-only write-ahead log: length-framed, checksummed records, a torn tail is
    detected and dropped. */
module Wal {
  import opened Order
  import opened Bytes

  const RECORD_HEADER_LEN := 8

  /** Serialisation and checksum, opaque but for what is asked of the operations written. */
  datatype Codec<!Op> = Codec(ser: Op -> seq<Byte>, de: seq<Byte> -> Option<Op>, crc: seq<Byte> -> nat)

  /** The checksum field has 32 bits. */
  ghost predicate Lawful<Op>(c: Codec<Op>) {
    forall bs: seq<Byte> :: c.crc(bs) < TWO32
  }

  /** Serialising the operation can be undone, and its length fits the 32-bit field. */
  ghost predicate Encodable<Op(!new)>(c: Codec<Op>, op: Op) {
    c.de(c.ser(op)) == Some(op) && |c.ser(op)| < TWO32
  }

  ghost predicate AllEncodable<Op(!new)>(c: Codec<Op>, ops: seq<Op>) {
    forall i :: 0 <= i < |ops| ==> Encodable(c, ops[i])
  }

  /** What `append` writes. */
  function Record<Op>(c: Codec<Op>, op: Op): (bs: seq<Byte>)
    ensures |bs| == RECORD_HEADER_LEN + |c.ser(op)|
  {
    ToLe(|c.ser(op)|, 4) + ToLe(c.crc(c.ser(op)), 4) + c.ser(op)
  }

  function Encode<Op>(c: Codec<Op>, ops: seq<Op>): seq<Byte> {
    if ops == [] then [] else Record(c, ops[0]) + Encode(c, ops[1..])
  }

  /** The record at the front of `bytes` and its length, unless torn or corrupt. */
  function Front<Op>(c: Codec<Op>, bytes: seq<Byte>): (r: Option<(Op, nat)>)
    ensures r.Some? ==> RECORD_HEADER_LEN <= r.value.1 <= |bytes|
  {
    if |bytes| < RECORD_HEADER_LEN then None
    else
      var end := RECORD_HEADER_LEN + FromLe(bytes[..4]);
      if end > |bytes| then None
      else
        var payload := bytes[RECORD_HEADER_LEN..end];
        if c.crc(payload) != FromLe(bytes[4..8]) then None
        else match c.de(payload)
          case Some(op) => Some((op, end))
          case None => None
  }

  /** All records up to the first torn or corrupt one, and where the last of them ends. */
  function Read<Op>(c: Codec<Op>, bytes: seq<Byte>): (r: (seq<Op>, nat))
    ensures r.1 <= |bytes|
    decreases |bytes|
  {
    match Front(c, bytes)
    case None => ([], 0)
    case Some(rec) =>
      var rest := Read(c, bytes[rec.1..]);
      ([rec.0] + rest.0, rec.1 + rest.1)
  }

  method ReadRecords<Op>(c: Codec<Op>, bytes: seq<Byte>) returns (ops: seq<Op>, validEnd: nat)
    ensures ops == Read(c, bytes).0 && validEnd == Read(c, bytes).1
  {
    hide Front, FromLe, Read;
    ops := [];
    var off := 0;
    assert bytes[0..] == bytes;
    while off < |bytes|
      invariant 0 <= off <= |bytes|
      invariant Read(c, bytes).0 == ops + Read(c, bytes[off..]).0
      invariant Read(c, bytes).1 == off + Read(c, bytes[off..]).1
    {
      FrontAt(c, bytes, off);
      ReadNothing(c, bytes[off..]);
      if off + RECORD_HEADER_LEN > |bytes| {
        break;
      }
      var len := FromLe(bytes[off..off + 4]);
      var crc := FromLe(bytes[off + 4..off + 8]);
      var payloadEnd := off + RECORD_HEADER_LEN + len;
      if payloadEnd > |bytes| {
        break;
      }
      var payload := bytes[off + RECORD_HEADER_LEN..payloadEnd];
      if c.crc(payload) != crc {
        break;
      }
      var op := c.de(payload);
      if op.None? {
        break;
      }
      ReadStep(c, bytes[off..], op.value, RECORD_HEADER_LEN + len);
      assert bytes[off..][RECORD_HEADER_LEN + len..] == bytes[payloadEnd..];
      ops := ops + [op.value];
      off := payloadEnd;
    }
    ReadNothing(c, bytes[off..]);
    validEnd := off;
  }

  /** The record at an offset, in terms of the whole file. */
  lemma {:induction false} FrontAt<Op>(c: Codec<Op>, bytes: seq<Byte>, off: nat)
    requires off <= |bytes|
    ensures Front(c, bytes[off..]) ==
            if off + RECORD_HEADER_LEN > |bytes| then None
            else
              var end := off + RECORD_HEADER_LEN + FromLe(bytes[off..off + 4]);
              if end > |bytes| then None
              else
                var payload := bytes[off + RECORD_HEADER_LEN..end];
                if c.crc(payload) != FromLe(bytes[off + 4..off + 8]) || c.de(payload).None? then None
                else Some((c.de(payload).value, end - off))
  {
    hide FromLe;
    var rest := bytes[off..];
    if off + RECORD_HEADER_LEN <= |bytes| {
      assert rest[..4] == bytes[off..off + 4] && rest[4..8] == bytes[off + 4..off + 8];
      var len := FromLe(rest[..4]);
      if RECORD_HEADER_LEN + len <= |rest| {
        assert rest[RECORD_HEADER_LEN..RECORD_HEADER_LEN + len] ==
               bytes[off + RECORD_HEADER_LEN..off + RECORD_HEADER_LEN + len];
      }
    }
  }

  lemma {:induction false} ReadNothing<Op>(c: Codec<Op>, bytes: seq<Byte>)
    ensures bytes == [] || Front(c, bytes).None? ==> Read(c, bytes) == ([], 0)
  {
    hide FromLe;
  }

  // ---- Reading what was written ----

  lemma {:induction false} FrontOfRecord<Op(!new)>(c: Codec<Op>, op: Op, tail: seq<Byte>)
    requires Lawful(c) && Encodable(c, op)
    ensures Front(c, Record(c, op) + tail) == Some((op, |Record(c, op)|))
  {
    var bytes, payload := Record(c, op) + tail, c.ser(op);
    PowValues();
    assert c.de(payload) == Some(op);
    ToLeRoundTrip(|payload|, 4);
    ToLeRoundTrip(c.crc(payload), 4);
    assert bytes[..4] == ToLe(|payload|, 4);
    assert bytes[4..8] == ToLe(c.crc(payload), 4);
    assert bytes[RECORD_HEADER_LEN..RECORD_HEADER_LEN + |payload|] == payload;
  }

  /** A record reads back as what was written exactly when its operation is encodable: nothing
      else makes a length or a body come back different. */
  lemma {:induction false} RecordReadsBackIff<Op(!new)>(c: Codec<Op>, op: Op)
    requires Lawful(c)
    ensures Front(c, Record(c, op)) == Some((op, |Record(c, op)|)) <==> Encodable(c, op)
  {
    hide FromLe, ToLe;
    var bytes := Record(c, op);
    assert bytes + [] == bytes;
    if Encodable(c, op) {
      FrontOfRecord(c, op, []);
    } else if Front(c, bytes) == Some((op, |bytes|)) {
      PowValues();
      FromLeRoundTrip(bytes[..4]);
      assert bytes[RECORD_HEADER_LEN..|bytes|] == c.ser(op);
    }
  }

  lemma {:induction false} FrontOfTorn<Op(!new)>(c: Codec<Op>, op: Op, n: nat)
    requires Encodable(c, op) && n < |Record(c, op)|
    ensures Front(c, Record(c, op)[..n]) == None
  {
    var bytes := Record(c, op)[..n];
    if n >= RECORD_HEADER_LEN {
      PowValues();
      assert c.de(c.ser(op)) == Some(op);
      ToLeRoundTrip(|c.ser(op)|, 4);
      assert bytes[..4] == ToLe(|c.ser(op)|, 4);
    }
  }

  /** How many whole records the first `n` bytes of the encoded log hold. */
  function Whole<Op>(c: Codec<Op>, ops: seq<Op>, n: nat): (m: nat)
    ensures m <= |ops|
  {
    if ops == [] || n < |Record(c, ops[0])| then 0 else 1 + Whole(c, ops[1..], n - |Record(c, ops[0])|)
  }

  /** `Whole` is the longest record prefix that fits. */
  lemma {:induction false} WholeIsLongest<Op>(c: Codec<Op>, ops: seq<Op>, n: nat)
    ensures |Encode(c, ops[..Whole(c, ops, n)])| <= n
    ensures Whole(c, ops, n) < |ops| ==> n < |Encode(c, ops[..Whole(c, ops, n) + 1])|
  {
    hide Record;
    if ops != [] && n >= |Record(c, ops[0])| {
      var m := Whole(c, ops[1..], n - |Record(c, ops[0])|);
      WholeIsLongest(c, ops[1..], n - |Record(c, ops[0])|);
      assert ops[..m + 1][1..] == ops[1..][..m];
      if m + 1 < |ops| { assert ops[..m + 2][1..] == ops[1..][..m + 1]; }
    } else if ops != [] {
      assert ops[..1][1..] == [];
    }
  }

  lemma {:induction false} EncodeTake<Op>(c: Codec<Op>, ops: seq<Op>, m: nat)
    requires m < |ops|
    ensures Encode(c, ops[..m + 1]) == Record(c, ops[0]) + Encode(c, ops[1..][..m])
  {
    assert ops[..m + 1][1..] == ops[1..][..m];
  }

  lemma {:induction false} ReadBehindRecord<Op(!new)>(c: Codec<Op>, op: Op, tail: seq<Byte>)
    requires Lawful(c) && Encodable(c, op)
    ensures Read(c, Record(c, op) + tail) == ([op] + Read(c, tail).0, |Record(c, op)| + Read(c, tail).1)
  {
    FrontOfRecord(c, op, tail);
    assert (Record(c, op) + tail)[|Record(c, op)|..] == tail;
  }

  lemma {:induction false} TornReadsNothing<Op(!new)>(c: Codec<Op>, ops: seq<Op>, n: nat)
    requires ops != [] && Encodable(c, ops[0]) && n < |Record(c, ops[0])|
    ensures Read(c, Encode(c, ops)[..n]) == ([], 0)
  {
    FrontOfTorn(c, ops[0], n);
    assert Encode(c, ops)[..n] == Record(c, ops[0])[..n];
  }

  /** Any truncation of the log reads back as the longest record prefix it contains, and the
      valid end is exactly where that prefix ends. */
  lemma {:induction false} ReadTruncated<Op(!new)>(c: Codec<Op>, ops: seq<Op>, n: nat)
    requires Lawful(c) && AllEncodable(c, ops) && n <= |Encode(c, ops)|
    ensures Read(c, Encode(c, ops)[..n]).0 == ops[..Whole(c, ops, n)]
    ensures Read(c, Encode(c, ops)[..n]).1 == |Encode(c, ops[..Whole(c, ops, n)])|
  {
    hide Front, Record, Lawful;
    if ops != [] {
      var op, rest := ops[0], ops[1..];
      var len := |Record(c, op)|;
      if n < len {
        TornReadsNothing(c, ops, n);
      } else {
        var tail := Encode(c, rest)[..n - len];
        assert Encode(c, ops)[..n] == Record(c, op) + tail;
        ReadBehindRecord(c, op, tail);
        ReadTruncated(c, rest, n - len);
        var m := Whole(c, rest, n - len);
        EncodeTake(c, ops, m);
        assert ops[..m + 1] == [op] + rest[..m];
      }
    }
  }

  lemma {:induction false} ReadStep<Op>(c: Codec<Op>, bytes: seq<Byte>, op: Op, end: nat)
    requires Front(c, bytes) == Some((op, end))
    ensures end <= |bytes|
    ensures Read(c, bytes).0 == [op] + Read(c, bytes[end..]).0
    ensures Read(c, bytes).1 == end + Read(c, bytes[end..]).1
  {
  }

  /** Reading is compositional behind a cleanly ending log. */
  lemma {:induction false} ReadConcat<Op>(c: Codec<Op>, a: seq<Byte>, b: seq<Byte>)
    requires Read(c, a).1 == |a|
    ensures Read(c, a + b).0 == Read(c, a).0 + Read(c, b).0
    ensures Read(c, a + b).1 == |a| + Read(c, b).1
    decreases |a|
  {
    hide FromLe;
    if a == [] {
      assert a + b == b;
    } else {
      var end := Front(c, a).value.1;
      ReadConcat(c, a[end..], b);
      ConcatStep(c, a, b);
    }
  }

  lemma {:induction false} ConcatStep<Op>(c: Codec<Op>, a: seq<Byte>, b: seq<Byte>)
    requires Front(c, a).Some?
    ensures var end := Front(c, a).value.1;
            && Read(c, a).0 == [Front(c, a).value.0] + Read(c, a[end..]).0
            && Read(c, a).1 == end + Read(c, a[end..]).1
            && Read(c, a + b).0 == [Front(c, a).value.0] + Read(c, a[end..] + b).0
            && Read(c, a + b).1 == end + Read(c, a[end..] + b).1
  {
    var op, end := Front(c, a).value.0, Front(c, a).value.1;
    FrontExtends(c, a, b);
    ReadStep(c, a, op, end);
    ReadStep(c, a + b, op, end);
    assert (a + b)[end..] == a[end..] + b;
  }

  lemma {:induction false} FrontExtends<Op>(c: Codec<Op>, a: seq<Byte>, b: seq<Byte>)
    requires Front(c, a).Some?
    ensures Front(c, a + b) == Front(c, a)
  {
    hide FromLe;
    var end := RECORD_HEADER_LEN + FromLe(a[..4]);
    assert (a + b)[..4] == a[..4] && (a + b)[4..8] == a[4..8];
    assert (a + b)[RECORD_HEADER_LEN..end] == a[RECORD_HEADER_LEN..end];
  }

  lemma {:induction false} ReadEncoded<Op(!new)>(c: Codec<Op>, ops: seq<Op>)
    requires Lawful(c) && AllEncodable(c, ops)
    ensures Read(c, Encode(c, ops)) == (ops, |Encode(c, ops)|)
  {
    if ops != [] {
      var r, rest := Record(c, ops[0]), Encode(c, ops[1..]);
      FrontOfRecord(c, ops[0], rest);
      ReadEncoded(c, ops[1..]);
      assert (r + rest)[|r|..] == rest;
      assert [ops[0]] + ops[1..] == ops;
    }
  }

  /** Whatever bytes follow the log, all its operations are read first. */
  lemma {:induction false} ReadWithTail<Op(!new)>(c: Codec<Op>, ops: seq<Op>, tail: seq<Byte>)
    requires Lawful(c) && AllEncodable(c, ops)
    ensures Read(c, Encode(c, ops) + tail).0 == ops + Read(c, tail).0
    ensures Read(c, Encode(c, ops) + tail).1 == |Encode(c, ops)| + Read(c, tail).1
  {
    ReadEncoded(c, ops);
    ReadConcat(c, Encode(c, ops), tail);
  }

  /** Cutting a file at its valid end keeps its records and leaves nothing more to cut. */
  lemma {:induction false} ReadValidPart<Op>(c: Codec<Op>, bytes: seq<Byte>)
    ensures Read(c, bytes[..Read(c, bytes).1]) == Read(c, bytes)
    decreases |bytes|
  {
    hide FromLe, Front;
    if Front(c, bytes).Some? {
      var rec := Front(c, bytes).value;
      var rest := bytes[rec.1..];
      ReadValidPart(c, rest);
      var cut := bytes[..rec.1 + Read(c, rest).1];
      FrontOfCut(c, bytes, |cut|);
      assert cut[rec.1..] == rest[..Read(c, rest).1];
    } else {
      assert bytes[..0] == [];
      ReadNothing(c, bytes[..0]);
    }
  }

  lemma {:induction false} FrontOfCut<Op>(c: Codec<Op>, bytes: seq<Byte>, n: nat)
    requires Front(c, bytes).Some? && Front(c, bytes).value.1 <= n <= |bytes|
    ensures Front(c, bytes[..n]) == Front(c, bytes)
  {
    hide FromLe;
    var cut, end := bytes[..n], RECORD_HEADER_LEN + FromLe(bytes[..4]);
    assert cut[..4] == bytes[..4] && cut[4..8] == bytes[4..8];
    assert cut[RECORD_HEADER_LEN..end] == bytes[RECORD_HEADER_LEN..end];
  }

  lemma {:induction false} EncodeSnoc<Op>(c: Codec<Op>, ops: seq<Op>, op: Op)
    ensures Encode(c, ops + [op]) == Encode(c, ops) + Record(c, op)
  {
    if ops == [] {
      assert [op][1..] == [];
    } else {
      EncodeSnoc(c, ops[1..], op);
      assert (ops + [op])[1..] == ops[1..] + [op];
    }
  }

  lemma {:induction false} EncodeConcat<Op>(c: Codec<Op>, a: seq<Op>, b: seq<Op>)
    ensures Encode(c, a + b) == Encode(c, a) + Encode(c, b)
  {
    if a == [] {
      assert a + b == b;
    } else {
      EncodeConcat(c, a[1..], b);
      assert (a + b)[1..] == a[1..] + b;
    }
  }

  // ---- What a crash can leave of a batch ----

  /** Every record takes room. */
  lemma {:induction false} EncodeGrows<Op>(c: Codec<Op>, ops: seq<Op>, a: nat, b: nat)
    requires a <= b <= |ops|
    ensures |Encode(c, ops[..b])| >= |Encode(c, ops[..a])| + (b - a)
    decreases b - a
  {
    hide Encode;
    if a < b {
      EncodeGrows(c, ops, a, b - 1);
      assert ops[..b] == ops[..b - 1] + [ops[b - 1]];
      EncodeSnoc(c, ops[..b - 1], ops[b - 1]);
    }
  }

  lemma {:induction false} WholeAt<Op>(c: Codec<Op>, ops: seq<Op>, m: nat, n: nat)
    requires m <= |ops| && n >= |Encode(c, ops[..m])|
    ensures Whole(c, ops, n) >= m
    ensures n == |Encode(c, ops[..m])| ==> Whole(c, ops, n) == m
  {
    hide Encode, Whole;
    var w := Whole(c, ops, n);
    WholeIsLongest(c, ops, n);
    if w < m {
      EncodeGrows(c, ops, w + 1, m);
    } else {
      EncodeGrows(c, ops, m, w);
    }
  }

  /** Wherever the writing of a batch behind a clean log is cut short, all of it or none is read. */
  ghost predicate AllOrNone<Op>(c: Codec<Op>, past: seq<Op>, batch: seq<Op>) {
    forall k :: |Encode(c, past)| <= k <= |Encode(c, past + batch)| ==>
      var found := Read(c, Encode(c, past + batch)[..k]).0;
      found == past || found == past + batch
  }

  /** A batch is logged as one record per operation, so it is indivisible to a crash exactly when
      it has at most one operation. */
  lemma {:induction false} BatchIsAtomicIff<Op(!new)>(c: Codec<Op>, past: seq<Op>, batch: seq<Op>)
    requires Lawful(c) && AllEncodable(c, past + batch)
    ensures AllOrNone(c, past, batch) <==> |batch| <= 1
  {
    hide Encode, Whole, Read, Lawful;
    var all := past + batch;
    assert all[..|past|] == past && all[..|all|] == all;
    if |batch| <= 1 {
      forall k | |Encode(c, past)| <= k <= |Encode(c, all)|
        ensures Read(c, Encode(c, all)[..k]).0 == past || Read(c, Encode(c, all)[..k]).0 == all
      {
        ReadTruncated(c, all, k);
        WholeAt(c, all, |past|, k);
        assert Whole(c, all, k) == |past| || Whole(c, all, k) == |all|;
      }
    } else {
      var m := |past| + 1;
      var k := |Encode(c, all[..m])|;
      EncodeGrows(c, all, |past|, m);
      EncodeGrows(c, all, m, |all|);
      ReadTruncated(c, all, k);
      WholeAt(c, all, m, k);
      assert |Read(c, Encode(c, all)[..k]).0| == m;
    }
  }

  /** An open log: `bytes` is the file, the first `synced` of which are known to be on disk. */
  class Log<Op(!new)> {
    const c: Codec<Op>
    var bytes: seq<Byte>
    var synced: nat
    var count: nat

    ghost predicate Valid()
      reads this
    {
      Lawful(c) && Read(c, bytes).1 == |bytes| && count == |Read(c, bytes).0| && synced <= |bytes|
    }

    ghost function Ops(): seq<Op>
      reads this
    {
      Read(c, bytes).0
    }

    /** Opens a file (`None` when absent), dropping a torn tail. */
    constructor Open(c: Codec<Op>, file: Option<seq<Byte>>)
      requires Lawful(c)
      ensures Valid() && this.c == c && synced == 0
      ensures file.None? ==> bytes == []
      ensures file.Some? ==> bytes == file.value[..Read(c, file.value).1] && Ops() == Read(c, file.value).0
    {
      this.c := c;
      var contents := if file.Some? then file.value else [];
      var ops, validEnd := ReadRecords(c, contents);
      bytes, synced, count := contents[..validEnd], 0, |ops|;
      ReadValidPart(c, contents);
    }

    method Append(op: Op)
      requires Valid() && Encodable(c, op)
      modifies this`bytes, this`count
      ensures Valid() && Ops() == old(Ops()) + [op]
      ensures bytes == old(bytes) + Record(c, op)
    {
      FrontOfRecord(c, op, []);
      assert Record(c, op) + [] == Record(c, op);
      ReadConcat(c, bytes, Record(c, op));
      bytes, count := bytes + Record(c, op), count + 1;
    }

    method Flush()
      requires Valid()
      modifies this`synced
      ensures Valid() && synced == |bytes|
    {
      synced := |bytes|;
    }

    method ReadAll() returns (ops: seq<Op>)
      requires Valid()
      ensures ops == Ops()
    {
      var validEnd;
      ops, validEnd := ReadRecords(c, bytes);
    }
  }

  /** Open, append, reopen: the log reads back as before plus the new record, and opening it a
      second time changes nothing. */
  method Reopen<Op(!new)>(c: Codec<Op>, file: seq<Byte>, op: Op)
    returns (first: seq<Op>, second: seq<Op>, same: bool)
    requires Lawful(c) && Encodable(c, op)
    ensures first == Read(c, file).0
    ensures second == first + [op]
    ensures same
  {
    var log := new Log.Open(c, Some(file));
    first := log.ReadAll();
    log.Append(op);
    var again := new Log.Open(c, Some(log.bytes));
    second := again.ReadAll();
    assert log.bytes[..|log.bytes|] == log.bytes;
    same := again.bytes == log.bytes;
  }
}
