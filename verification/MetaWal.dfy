/** The framed, checksummed metadata log (src/catalog/src/store/wal.rs): magic, length, payload, checksum,
all little-endian. Replay stops quietly at a torn or damaged frame. */
module MetaWal {
  import opened Rows
  import opened Crc32

  // ----- bytes and numbers -----

  function Weigh(b0: bool, b1: bool, b2: bool, b3: bool, b4: bool, b5: bool, b6: bool, b7: bool): (n: nat) {
    One(b0) + 2 * (One(b1) + 2 * (One(b2) + 2 * (One(b3) + 2 * (One(b4) + 2 * (One(b5) + 2 * (One(b6) + 2 * One(b7)))))))
  }

  function One(b: bool): (n: nat) { if b then 1 else 0 }

  /** The value of a byte, bit by bit. */
  function Value(b: bv8): (n: nat) {
    Weigh(b & 1 != 0, b & 2 != 0, b & 4 != 0, b & 8 != 0, b & 16 != 0, b & 32 != 0, b & 64 != 0, b & 128 != 0)
  }

  function Bit(on: bool, b: bv8): (r: bv8) {
    if on then b else 0
  }

  function Pack(b0: bool, b1: bool, b2: bool, b3: bool, b4: bool, b5: bool, b6: bool, b7: bool): (r: bv8) {
    Bit(b0, 1) | Bit(b1, 2) | Bit(b2, 4) | Bit(b3, 8) | Bit(b4, 16) | Bit(b5, 32) | Bit(b6, 64) | Bit(b7, 128)
  }

  function Odd(n: nat): (r: bool) { n % 2 == 1 }

  function Halved(n: nat): (r: nat) { n / 2 }

  function ByteOf(n: nat): (b: bv8)
    requires n < 256
  {
    var n1 := Halved(n);
    var n2 := Halved(n1);
    var n3 := Halved(n2);
    var n4 := Halved(n3);
    var n5 := Halved(n4);
    var n6 := Halved(n5);
    var n7 := Halved(n6);
    Pack(Odd(n), Odd(n1), Odd(n2), Odd(n3), Odd(n4), Odd(n5), Odd(n6), Odd(n7))
  }

  lemma PackBits(b0: bool, b1: bool, b2: bool, b3: bool, b4: bool, b5: bool, b6: bool, b7: bool)
    ensures Value(Pack(b0, b1, b2, b3, b4, b5, b6, b7)) == Weigh(b0, b1, b2, b3, b4, b5, b6, b7)
  {
    hide Weigh;
  }

  lemma Halve(n: nat)
    ensures n == One(Odd(n)) + 2 * Halved(n) && One(Odd(n)) <= 1
  {
  }

  lemma HalveFour(n: nat)
    ensures var n1 := Halved(n);
            var n2 := Halved(n1);
            var n3 := Halved(n2);
            n == One(Odd(n)) + 2 * (One(Odd(n1)) + 2 * (One(Odd(n2)) + 2 * (One(Odd(n3)) + 2 * Halved(n3))))
  {
    hide Odd, One, Halved;
    Halve(n);
    Halve(Halved(n));
    Halve(Halved(Halved(n)));
    Halve(Halved(Halved(Halved(n))));
  }

  lemma Weighed(n: nat)
    requires n < 256
    ensures var n1 := Halved(n);
            var n2 := Halved(n1);
            var n3 := Halved(n2);
            var n4 := Halved(n3);
            var n5 := Halved(n4);
            var n6 := Halved(n5);
            var n7 := Halved(n6);
            Weigh(Odd(n), Odd(n1), Odd(n2), Odd(n3), Odd(n4), Odd(n5), Odd(n6), Odd(n7)) == n
  {
    hide Odd, One, Halved;
    HalveFour(n);
    HalveFour(Halved(Halved(Halved(Halved(n)))));
  }

  lemma ByteValue(n: nat)
    requires n < 256
    ensures Value(ByteOf(n)) == n
  {
    hide Pack, Value, Odd, Weigh, Halved;
    var n1 := Halved(n);
    var n2 := Halved(n1);
    var n3 := Halved(n2);
    var n4 := Halved(n3);
    var n5 := Halved(n4);
    var n6 := Halved(n5);
    var n7 := Halved(n6);
    Weighed(n);
    PackBits(Odd(n), Odd(n1), Odd(n2), Odd(n3), Odd(n4), Odd(n5), Odd(n6), Odd(n7));
  }

  const U32: nat := 0x1_0000_0000

  /** The length field: the low 32 bits, least significant byte first. */
  function LenBytes(n: nat): (r: Bytes)
    ensures |r| == 4
  {
    [ByteOf(n % 256), ByteOf(n / 256 % 256), ByteOf(n / 256 / 256 % 256), ByteOf(n / 256 / 256 / 256 % 256)]
  }

  function LenValue(s: Bytes): (n: nat)
    requires |s| == 4
  {
    Value(s[0]) + 256 * (Value(s[1]) + 256 * (Value(s[2]) + 256 * Value(s[3])))
  }

  lemma Digits(n: nat)
    requires n < U32
    ensures n == n % 256 + 256 * (n / 256 % 256 + 256 * (n / 256 / 256 % 256 + 256 * (n / 256 / 256 / 256 % 256)))
  {
    var a := n / 256;
    var b := a / 256;
    var c := b / 256;
    assert n == 256 * a + n % 256 && a == 256 * b + a % 256 && b == 256 * c + b % 256;
    assert c < 256;
  }

  lemma LenRoundTrip(n: nat)
    requires n < U32
    ensures LenValue(LenBytes(n)) == n
  {
    hide ByteOf, Value;
    ByteValue(n % 256);
    ByteValue(n / 256 % 256);
    ByteValue(n / 256 / 256 % 256);
    ByteValue(n / 256 / 256 / 256 % 256);
    Digits(n);
  }

  function CrcBytes(v: bv32): (r: Bytes)
    ensures |r| == 4
  {
    [(v & 0xFF) as bv8, ((v >> 8) & 0xFF) as bv8, ((v >> 16) & 0xFF) as bv8, ((v >> 24) & 0xFF) as bv8]
  }

  function CrcValue(s: Bytes): (v: bv32)
    requires |s| == 4
  {
    (s[0] as bv32) | ((s[1] as bv32) << 8) | ((s[2] as bv32) << 16) | ((s[3] as bv32) << 24)
  }

  lemma CrcRoundTrip(v: bv32)
    ensures CrcValue(CrcBytes(v)) == v
  {
  }

  // ----- frames -----

  const WAL_MAGIC: Bytes := [0x4D, 0x42, 0x44, 0x57]
  const FRAME_HEADER_LEN: nat := 12
  const MAX_WAL_BYTES: nat := 512 * 1024
  const MAX_WAL_RECORDS: nat := 64

  predicate NeedsCompaction(records: nat, bytes: nat) {
    records >= MAX_WAL_RECORDS || bytes >= MAX_WAL_BYTES
  }

  type Payload = Bytes

  function FrameOf(payload: Payload, crc: bv32): (f: Bytes)
    ensures |f| == FRAME_HEADER_LEN + |payload|
  {
    WAL_MAGIC + LenBytes(|payload|) + payload + CrcBytes(crc)
  }

  function Frame(payload: Payload): (f: Bytes)
    ensures |f| == FRAME_HEADER_LEN + |payload|
  {
    FrameOf(payload, Checksum(payload))
  }

  /** A cleanly appended log. */
  function Encode(payloads: seq<Payload>): (data: Bytes) {
    if payloads == [] then [] else Encode(payloads[..|payloads| - 1]) + Frame(payloads[|payloads| - 1])
  }

  /** What a reader does at the start of `data`. */
  datatype FrameRead = Stop | BadMagic | Found(payload: Payload, size: nat)

  function ReadFrame(data: Bytes): (s: FrameRead)
    ensures s.Found? ==> 0 < s.size <= |data|
  {
    if |data| < 12 then Stop
    else if data[..4] != WAL_MAGIC then BadMagic
    else
      var end := 8 + LenValue(data[4..8]);
      if |data| < end + 4 then Stop
      else if CrcValue(data[end..end + 4]) != Checksum(data[8..end]) then Stop
      else Found(data[8..end], end + 4)
  }

  function After(payloads: seq<Payload>, rest: Result<seq<Payload>>): (r: Result<seq<Payload>>) {
    if rest.Err? then Err else Ok(payloads + rest.value)
  }

  lemma AfterAfter(a: seq<Payload>, b: seq<Payload>, rest: Result<seq<Payload>>)
    ensures After(a, After(b, rest)) == After(a + b, rest) && After([], rest) == rest
  {
    assert rest.Ok? ==> a + (b + rest.value) == (a + b) + rest.value;
    assert rest.Ok? ==> [] + rest.value == rest.value;
  }

  function Frames(data: Bytes): (r: Result<seq<Payload>>)
    decreases |data|
  {
    match ReadFrame(data)
    case Stop => Ok([])
    case BadMagic => Err
    case Found(p, size) => After([p], Frames(data[size..]))
  }

  method DecodeAllFrames(data: Bytes) returns (r: Result<seq<Payload>>)
    ensures r == Frames(data)
  {
    hide ReadFrame, After;
    var out: seq<Payload>, offset := [], 0;
    assert data[0..] == data;
    AfterAfter([], [], Frames(data));
    while offset < |data|
      invariant offset <= |data| && Frames(data) == After(out, Frames(data[offset..]))
      decreases |data| - offset
    {
      var step := ReadFrame(data[offset..]);
      match step
      case Stop =>
        AfterStop(out);
        return Ok(out);
      case BadMagic =>
        AfterStop(out);
        return Err;
      case Found(p, size) =>
        assert data[offset..][size..] == data[offset + size..];
        AfterAfter(out, [p], Frames(data[offset + size..]));
        out := out + [p];
        offset := offset + size;
    }
    NothingLeft(data[offset..]);
    AfterStop(out);
    return Ok(out);
  }

  lemma AfterStop(out: seq<Payload>)
    ensures After(out, Ok([])) == Ok(out) && After(out, Err) == Err
  {
    assert out + [] == out;
  }

  lemma NothingLeft(data: Bytes)
    requires |data| < 12
    ensures Frames(data) == Ok([])
  {
  }

  // ----- reading back what was written -----

  /** A whole frame is read back, whatever follows it; a checksum that does not fit stops the reader. */
  lemma ReadWhole(payload: Payload, crc: bv32, rest: Bytes)
    requires |payload| < U32
    ensures ReadFrame(FrameOf(payload, crc) + rest)
            == if crc == Checksum(payload) then Found(payload, FRAME_HEADER_LEN + |payload|) else Stop
  {
    hide LenBytes, LenValue, CrcBytes, CrcValue, Checksum;
    LenRoundTrip(|payload|);
    CrcRoundTrip(crc);
    var data, end := FrameOf(payload, crc) + rest, 8 + |payload|;
    assert data[..4] == WAL_MAGIC && data[4..8] == LenBytes(|payload|);
    assert data[8..end] == payload && data[end..end + 4] == CrcBytes(crc);
  }

  /** A torn frame stops the reader. */
  lemma ReadTorn(payload: Payload, n: nat)
    requires |payload| < U32 && n < FRAME_HEADER_LEN + |payload|
    ensures ReadFrame(Frame(payload)[..n]) == Stop
  {
    hide LenBytes, LenValue, CrcBytes, CrcValue, Checksum;
    if n >= 12 {
      LenRoundTrip(|payload|);
      var frame, data := Frame(payload), Frame(payload)[..n];
      var tail := LenBytes(|payload|) + (payload + CrcBytes(Checksum(payload)));
      assert frame == WAL_MAGIC + tail;
      assert frame[4..] == tail;
      assert data[..4] == frame[..4] == WAL_MAGIC;
      assert data[4..8] == frame[4..8] == tail[..4] == LenBytes(|payload|);
    }
  }

  lemma EncodeNone()
    ensures Encode([]) == []
  {
  }

  lemma EncodeLast(payloads: seq<Payload>)
    requires payloads != []
    ensures Encode(payloads) == Encode(payloads[..|payloads| - 1]) + Frame(payloads[|payloads| - 1])
  {
  }

  lemma {:induction false} EncodeHead(payloads: seq<Payload>)
    requires payloads != []
    ensures Encode(payloads) == Frame(payloads[0]) + Encode(payloads[1..])
  {
    hide Frame, Encode;
    var n := |payloads| - 1;
    EncodeLast(payloads);
    EncodeNone();
    if n == 0 {
      assert payloads[..0] == [] && payloads[1..] == [];
    } else {
      EncodeHead(payloads[..n]);
      EncodeLast(payloads[1..]);
      assert payloads[..n][1..] == payloads[1..][..n - 1];
    }
  }

  ghost predicate Short(payloads: seq<Payload>) {
    forall i :: 0 <= i < |payloads| ==> |payloads[i]| < U32
  }

  /** How many whole frames fit in the first `n` bytes. */
  function Fitting(payloads: seq<Payload>, n: nat): (k: nat)
    ensures k <= |payloads|
  {
    if payloads == [] || n < |Frame(payloads[0])| then 0
    else 1 + Fitting(payloads[1..], n - |Frame(payloads[0])|)
  }

  /** `Fitting` is the largest number of records whose frames fit. */
  lemma {:induction false} FittingExact(payloads: seq<Payload>, n: nat, k: nat)
    requires k <= |payloads|
    ensures |Encode(payloads[..k])| <= n <==> k <= Fitting(payloads, n)
  {
    hide Frame;
    if k > 0 {
      var first := payloads[0];
      EncodeHead(payloads[..k]);
      assert payloads[..k][1..] == payloads[1..][..k - 1];
      if |Frame(first)| <= n {
        FittingExact(payloads[1..], n - |Frame(first)|, k - 1);
      }
    }
  }

  /** A whole frame is read first, whatever follows. */
  lemma FramesHead(first: Payload, rest: Bytes)
    requires |first| < U32
    ensures Frames(Frame(first) + rest) == After([first], Frames(rest))
  {
    hide Frame, ReadFrame, After, Checksum;
    FrameIsFrameOf(first);
    ReadWhole(first, Checksum(first), rest);
    assert (Frame(first) + rest)[|Frame(first)|..] == rest;
  }

  lemma FramesTorn(first: Payload, n: nat)
    requires |first| < U32 && n < |Frame(first)|
    ensures Frames(Frame(first)[..n]) == Ok([])
  {
    hide Frame, ReadFrame;
    FrameIsFrameOf(first);
    ReadTorn(first, n);
  }

  /** A log cut at any byte replays to exactly the records that fit whole. */
  lemma {:induction false} TruncatedReplay(payloads: seq<Payload>, n: nat)
    requires Short(payloads) && n <= |Encode(payloads)|
    ensures Frames(Encode(payloads)[..n]) == Ok(payloads[..Fitting(payloads, n)])
  {
    hide Frame, ReadFrame, Frames, Encode;
    if payloads == [] {
      EncodeNone();
      NothingLeft([]);
    } else {
      var first, rest := payloads[0], payloads[1..];
      EncodeHead(payloads);
      var size := |Frame(first)|;
      if n < size {
        FramesTorn(first, n);
        assert Encode(payloads)[..n] == Frame(first)[..n];
      } else {
        TruncatedReplay(rest, n - size);
        assert Encode(payloads)[..n] == Frame(first) + Encode(rest)[..n - size];
        FramesHead(first, Encode(rest)[..n - size]);
        assert [first] + rest[..Fitting(rest, n - size)] == payloads[..Fitting(payloads, n)];
      }
    }
  }

  lemma FrameIsFrameOf(payload: Payload)
    ensures Frame(payload) == FrameOf(payload, Checksum(payload)) && |Frame(payload)| == FRAME_HEADER_LEN + |payload|
  {
  }

  /** An untouched log replays to exactly what was appended. */
  lemma CleanReplay(payloads: seq<Payload>)
    requires Short(payloads)
    ensures Frames(Encode(payloads)) == Ok(payloads)
  {
    hide Encode, Frames, Fitting;
    var n := |Encode(payloads)|;
    TruncatedReplay(payloads, n);
    assert Encode(payloads)[..n] == Encode(payloads);
    FittingExact(payloads, n, |payloads|);
    assert payloads[..|payloads|] == payloads;
  }

  /** Whatever stands behind whole frames, they are read first. */
  lemma {:induction false} FramesBefore(payloads: seq<Payload>, rest: Bytes)
    requires Short(payloads)
    ensures Frames(Encode(payloads) + rest) == After(payloads, Frames(rest))
  {
    hide Frame, ReadFrame, After, Encode, Frames;
    AfterAfter([], [], Frames(rest));
    if payloads == [] {
      EncodeNone();
      assert Encode(payloads) + rest == rest;
    } else {
      var first, others := payloads[0], payloads[1..];
      EncodeHead(payloads);
      FramesBefore(others, rest);
      assert Encode(payloads) + rest == Frame(first) + (Encode(others) + rest);
      FramesHead(first, Encode(others) + rest);
      AfterAfter([first], others, Frames(rest));
      assert [first] + others == payloads;
    }
  }

  /** Whole frames followed by at least a header's worth of bytes under another magic number: an error, not the
      records before it. */
  lemma WrongMagic(payloads: seq<Payload>, rest: Bytes)
    requires Short(payloads) && |rest| >= 12 && rest[..4] != WAL_MAGIC
    ensures Frames(Encode(payloads) + rest) == Err
  {
    hide Encode;
    FramesBefore(payloads, rest);
    AfterStop(payloads);
  }

  /** A frame, byte for byte: the magic number, the length and the check value of "123456789", each least
      significant byte first. */
  lemma FrameVector()
    ensures var digits: Bytes := [0x31, 0x32, 0x33, 0x34, 0x35, 0x36, 0x37, 0x38, 0x39];
            Frame(digits) == [0x4D, 0x42, 0x44, 0x57] + [9, 0, 0, 0] + digits + [0x26, 0x39, 0xF4, 0xCB]
  {
    hide Checksum, LenBytes, CrcBytes;
    KnownVector();
    LenNine();
    CrcVector();
  }

  lemma PackNine()
    ensures Pack(true, false, false, true, false, false, false, false) == 9
    ensures Pack(false, false, false, false, false, false, false, false) == 0
  {
  }

  lemma LenNine()
    ensures LenBytes(9) == [9, 0, 0, 0]
  {
    hide Pack, Odd, Halved;
    PackNine();
    assert Halved(9) == 4 && Halved(4) == 2 && Halved(2) == 1 && Halved(1) == 0 && Halved(0) == 0 by { HalvesOfNine(); }
    assert Odd(9) && !Odd(4) && !Odd(2) && Odd(1) && !Odd(0) by { HalvesOfNine(); }
    assert ByteOf(9) == 9 && ByteOf(0) == 0;
  }

  lemma HalvesOfNine()
    ensures Halved(9) == 4 && Halved(4) == 2 && Halved(2) == 1 && Halved(1) == 0 && Halved(0) == 0
    ensures Odd(9) && !Odd(4) && !Odd(2) && Odd(1) && !Odd(0)
  {
  }

  lemma CrcVector()
    ensures CrcBytes(0xCBF4_3926) == [0x26, 0x39, 0xF4, 0xCB]
  {
  }

  /** Damage inside four consecutive bytes of one payload: replay gives exactly the records before it. */
  lemma DamagedReplay(before: seq<Payload>, prefix: Bytes, x: Bytes, y: Bytes, suffix: Bytes, after: Bytes)
    requires Short(before) && |prefix + x + suffix| < U32 && |x| == |y| <= 4 && x != y
    ensures Frames(Encode(before) + (FrameOf(prefix + y + suffix, Checksum(prefix + x + suffix)) + after)) == Ok(before)
  {
    hide ReadFrame, Checksum, FrameOf;
    WindowDetected(prefix, x, y, suffix);
    var damaged := FrameOf(prefix + y + suffix, Checksum(prefix + x + suffix)) + after;
    ReadWhole(prefix + y + suffix, Checksum(prefix + x + suffix), after);
    FramesBefore(before, damaged);
    AfterStop(before);
  }

  // ----- the log file -----

  class MetaWal {
    var file: Bytes
    var records: nat
    var bytes: nat
    ghost var payloads: seq<Payload>

    ghost predicate Valid()
      reads this
    {
      file == Encode(payloads) && records == |payloads| && bytes == |file| && Short(payloads)
    }

    constructor ()
      ensures Valid() && payloads == []
    {
      file, records, bytes, payloads := [], 0, 0, [];
    }

    method Append(payload: Payload)
      requires Valid() && |payload| < U32
      modifies this
      ensures Valid() && payloads == old(payloads) + [payload] && old(file) <= file
    {
      hide FrameOf, Checksum;
      var crc := Crc32.Crc32(payload);
      assert (payloads + [payload])[..|payloads|] == payloads;
      file := file + FrameOf(payload, crc);
      records := records + 1;
      bytes := bytes + FRAME_HEADER_LEN + |payload|;
      payloads := payloads + [payload];
    }

    /** What was appended comes back. */
    method Replay() returns (r: Result<seq<Payload>>)
      requires Valid()
      ensures r == Ok(payloads)
    {
      CleanReplay(payloads);
      r := DecodeAllFrames(file);
    }

    method Truncate()
      modifies this
      ensures Valid() && payloads == []
    {
      file, records, bytes, payloads := [], 0, 0, [];
    }
  }
}
