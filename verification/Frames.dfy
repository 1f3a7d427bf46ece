/**
 * The hand-written WebSocket client of the load generator: the opening handshake read byte by byte,
 * frames written masked, and frames read unmasked, over a byte stream. Sections 5.2 and 5.3 of
 * RFC 6455 give the decoder and the frame relation the two directions are proved against.
 */
module Frames {
  import opened Common

  const MAX_LENGTH := 0x8000_0000_0000_0000

  // ---- numbers as bytes -----------------------------------------------------------------------

  function BigEndian(n: nat, k: nat): (b: seq<Byte>)
    ensures |b| == k
  {
    if k == 0 then [] else BigEndian(n / 256, k - 1) + [n % 256]
  }

  function FromBigEndian(b: seq<Byte>): nat {
    if b == [] then 0 else 256 * FromBigEndian(Init(b)) + Last(b)
  }

  function Pow256(k: nat): nat {
    if k == 0 then 1 else 256 * Pow256(k - 1)
  }

  lemma {:induction false} BigEndianRoundTrip(n: nat, k: nat)
    requires n < Pow256(k)
    ensures FromBigEndian(BigEndian(n, k)) == n
  {
    if k != 0 {
      BigEndianRoundTrip(n / 256, k - 1);
      assert Init(BigEndian(n, k)) == BigEndian(n / 256, k - 1);
    }
  }

  lemma {:induction false} BigEndianOfRead(b: seq<Byte>)
    ensures FromBigEndian(b) < Pow256(|b|)
    ensures BigEndian(FromBigEndian(b), |b|) == b
  {
    if b != [] {
      BigEndianOfRead(Init(b));
      assert b == Init(b) + [Last(b)];
    }
  }

  lemma Powers()
    ensures Pow256(2) == 0x1_0000 && Pow256(8) == 2 * MAX_LENGTH
  {
    assert Pow256(4) == 0x1_0000_0000;
  }

  // ---- masking --------------------------------------------------------------------------------

  /** Exclusive or of the low `k` bits. */
  function XorBits(a: nat, b: nat, k: nat): nat {
    if k == 0 then 0 else (a + b) % 2 + 2 * XorBits(a / 2, b / 2, k - 1)
  }

  function Pow2(k: nat): nat {
    if k == 0 then 1 else 2 * Pow2(k - 1)
  }

  lemma XorBitsSplit(a: nat, b: nat, k: nat, x: nat)
    requires k > 0 && x == XorBits(a, b, k)
    ensures x % 2 == (a + b) % 2 && x / 2 == XorBits(a / 2, b / 2, k - 1)
  {
    LowestBit((a + b) % 2, XorBits(a / 2, b / 2, k - 1), x);
  }

  lemma LowestBit(bit: nat, others: nat, x: nat)
    requires bit < 2 && x == bit + 2 * others
    ensures x % 2 == bit && x / 2 == others
  {
  }

  lemma BitTwice(a: nat, b: nat, x: nat)
    requires x % 2 == (a + b) % 2
    ensures (x + b) % 2 == a % 2
  {
  }

  lemma Pow2Half(a: nat, k: nat)
    requires k > 0
    ensures a < Pow2(k) <==> a / 2 < Pow2(k - 1)
  {
  }

  lemma {:induction false} XorInverts(a: nat, b: nat, k: nat)
    requires a < Pow2(k)
    ensures XorBits(a, b, k) < Pow2(k)
    ensures XorBits(XorBits(a, b, k), b, k) == a
  {
    if k != 0 {
      var x := XorBits(a, b, k);
      Pow2Half(a, k);
      XorInverts(a / 2, b / 2, k - 1);
      XorBitsSplit(a, b, k, x);
      BitTwice(a, b, x);
      Pow2Half(x, k);
    }
  }

  function Xor(a: Byte, b: Byte): Byte {
    assert Pow2(8) == 256 by { assert Pow2(4) == 16; }
    XorInverts(a, b, 8);
    XorBits(a, b, 8)
  }

  lemma XorTwice(a: Byte, b: Byte)
    ensures Xor(Xor(a, b), b) == a
  {
    assert Pow2(8) == 256 by { assert Pow2(4) == 16; }
    XorInverts(a, b, 8);
  }

  /** Byte `i` of the data combined with byte `i % 4` of the key; section 5.3 uses it both ways. */
  function Masked(data: seq<Byte>, mask: seq<Byte>): (r: seq<Byte>)
    requires |mask| == 4
    ensures |r| == |data|
  {
    seq(|data|, i requires 0 <= i < |data| => Xor(data[i], mask[i % 4]))
  }

  lemma MaskTwice(data: seq<Byte>, mask: seq<Byte>)
    requires |mask| == 4
    ensures Masked(Masked(data, mask), mask) == data
  {
    forall i | 0 <= i < |data|
      ensures Masked(Masked(data, mask), mask)[i] == data[i]
    {
      XorTwice(data[i], mask[i % 4]);
    }
  }

  // ---- what the writer puts on the wire ---------------------------------------------------------

  /** The second header byte and the extended length, with the mask bit set. */
  function LengthField(n: nat): (f: seq<Byte>)
    requires n < MAX_LENGTH
    ensures 1 <= |f| <= 9
  {
    if n < 126 then [128 + n]
    else if n <= 0xFFFF then [128 + 126] + BigEndian(n, 2)
    else [128 + 127] + BigEndian(n, 8)
  }

  /** `0x80 | opcode` */
  function WithFin(opcode: Byte): Byte {
    if opcode < 128 then 128 + opcode else opcode
  }

  function Encode(opcode: Byte, mask: seq<Byte>, payload: seq<Byte>): seq<Byte>
    requires |mask| == 4 && |payload| < MAX_LENGTH
  {
    [WithFin(opcode)] + LengthField(|payload|) + mask + Masked(payload, mask)
  }

  // ---- the frame format of RFC 6455, section 5.2 --------------------------------------------------

  function ExtendedSize(len7: nat): nat {
    if len7 < 126 then 0 else if len7 == 126 then 2 else 8
  }

  function PayloadLength(len7: nat, extended: seq<Byte>): nat {
    if len7 < 126 then len7 else FromBigEndian(extended)
  }

  /** The shortest of the three length forms must be used. */
  predicate Shortest(len7: nat, n: nat) {
    (len7 == 126 ==> n >= 126) && (len7 == 127 ==> 0x1_0000 <= n < MAX_LENGTH)
  }

  datatype Decoded = Decoded(
    fin: bool,
    opcode: nat,
    mask: seq<Byte>,
    payload: seq<Byte>,
    rest: seq<Byte>)

  /** The first frame of a client's byte stream; `None` if it is incomplete or malformed. */
  function Decode(b: seq<Byte>): (r: Option<Decoded>)
    ensures r.Some? ==> |r.value.mask| == 4 && |r.value.rest| < |b|
  {
    if |b| < 2 then None
    else
      var len7 := b[1] % 128;
      var e := ExtendedSize(len7);
      if |b| < 6 + e || (b[0] / 16) % 8 != 0 || b[1] < 128 then None
      else
        var n := PayloadLength(len7, b[2..2 + e]);
        if |b| < 6 + e + n || !Shortest(len7, n) then None
        else
          var mask := b[2 + e..6 + e];
          Some(Decoded(b[0] >= 128, b[0] % 16, mask, Masked(b[6 + e..6 + e + n], mask), b[6 + e + n..]))
  }

  // ---- round trip of the writer -------------------------------------------------------------------

  /** Where each part of an encoded frame followed by `rest` lies. */
  lemma EncodedParts(opcode: Byte, mask: seq<Byte>, payload: seq<Byte>, rest: seq<Byte>)
    requires |mask| == 4 && |payload| < MAX_LENGTH
    ensures var b, f := Encode(opcode, mask, payload) + rest, LengthField(|payload|);
            && |b| == 5 + |f| + |payload| + |rest|
            && b[0] == WithFin(opcode)
            && b[1..1 + |f|] == f
            && b[1 + |f|..5 + |f|] == mask
            && b[5 + |f|..5 + |f| + |payload|] == Masked(payload, mask)
            && b[5 + |f| + |payload|..] == rest
  {
  }

  lemma LengthFieldReads(n: nat)
    requires n < MAX_LENGTH
    ensures var f := LengthField(n);
            var len7 := f[0] - 128;
            && 0 <= len7 <= 127
            && |f| == 1 + ExtendedSize(len7)
            && PayloadLength(len7, f[1..]) == n
            && Shortest(len7, n)
  {
    Powers();
    if n >= 0x1_0000 {
      BigEndianRoundTrip(n, 8);
      assert LengthField(n)[1..] == BigEndian(n, 8);
    } else if n >= 126 {
      BigEndianRoundTrip(n, 2);
      assert LengthField(n)[1..] == BigEndian(n, 2);
    }
  }

  lemma EncodedHeader(opcode: Byte, mask: seq<Byte>, payload: seq<Byte>, rest: seq<Byte>)
    requires |mask| == 4 && |payload| < MAX_LENGTH
    ensures var b, f := Encode(opcode, mask, payload) + rest, LengthField(|payload|);
            var len7 := f[0] - 128;
            var e := ExtendedSize(len7);
            && 0 <= len7 <= 127 && Shortest(len7, |payload|)
            && |f| == 1 + e && |b| == 6 + e + |payload| + |rest|
            && b[1] == 128 + len7 && b[1] % 128 == len7
            && PayloadLength(len7, b[2..2 + e]) == |payload|
  {
    var b, f := Encode(opcode, mask, payload) + rest, LengthField(|payload|);
    EncodedParts(opcode, mask, payload, rest);
    LengthFieldReads(|payload|);
    assert b[1] == b[1..1 + |f|][0];
    assert b[2..1 + |f|] == f[1..];
  }

  /**
   * The decoder recovers opcode and payload from the writer's bytes, whatever follows them: frames
   * are self-delimiting.
   */
  lemma ClientFrameRoundTrip(opcode: Byte, mask: seq<Byte>, payload: seq<Byte>, rest: seq<Byte>)
    requires opcode < 16 && |mask| == 4 && |payload| < MAX_LENGTH
    ensures Decode(Encode(opcode, mask, payload) + rest)
            == Some(Decoded(true, opcode, mask, payload, rest))
  {
    EncodedParts(opcode, mask, payload, rest);
    EncodedHeader(opcode, mask, payload, rest);
    MaskTwice(payload, mask);
  }

  lemma ShortestIsWritten(len7: nat, extended: seq<Byte>)
    requires len7 <= 127 && |extended| == ExtendedSize(len7)
    requires Shortest(len7, PayloadLength(len7, extended))
    ensures PayloadLength(len7, extended) < MAX_LENGTH
    ensures LengthField(PayloadLength(len7, extended)) == [128 + len7] + extended
  {
    Powers();
    BigEndianOfRead(extended);
  }

  lemma FinAndOpcode(first: Byte)
    requires first >= 128 && (first / 16) % 8 == 0
    ensures WithFin(first % 16) == first
  {
  }

  lemma SlicesOfFrame(b: seq<Byte>, e: nat, n: nat)
    requires |b| >= 6 + e + n
    ensures b == [b[0]] + ([b[1]] + b[2..2 + e]) + b[2 + e..6 + e] + b[6 + e..6 + e + n] + b[6 + e + n..]
  {
  }

  lemma Reassembled(b: seq<Byte>, e: nat, opcode: Byte, mask: seq<Byte>, payload: seq<Byte>, rest: seq<Byte>)
    requires |mask| == 4 && |payload| < MAX_LENGTH && |b| >= 6 + e + |payload|
    requires WithFin(opcode) == b[0] && LengthField(|payload|) == [b[1]] + b[2..2 + e]
    requires mask == b[2 + e..6 + e] && Masked(payload, mask) == b[6 + e..6 + e + |payload|]
    requires rest == b[6 + e + |payload|..]
    ensures b == Encode(opcode, mask, payload) + rest
  {
    SlicesOfFrame(b, e, |payload|);
  }

  /** `d` lies in `b` as section 5.2 lays an unfragmented frame out. */
  predicate LaidOut(b: seq<Byte>, d: Decoded) {
    |b| >= 2 &&
    var len7, n := b[1] % 128, |d.payload|;
    var e := ExtendedSize(len7);
    && |b| >= 6 + e + n && b[1] == 128 + len7
    && n == PayloadLength(len7, b[2..2 + e]) && Shortest(len7, n)
    && d.opcode < 16 && WithFin(d.opcode) == b[0]
    && d.mask == b[2 + e..6 + e]
    && Masked(d.payload, d.mask) == b[6 + e..6 + e + n]
    && d.rest == b[6 + e + n..]
  }

  lemma DecodedIsLaidOut(b: seq<Byte>)
    requires Decode(b).Some? && Decode(b).value.fin
    ensures LaidOut(b, Decode(b).value)
  {
    FinAndOpcode(b[0]);
    var d, e := Decode(b).value, ExtendedSize(b[1] % 128);
    MaskTwice(b[6 + e..6 + e + |d.payload|], d.mask);
  }

  lemma LaidOutIsEncoded(b: seq<Byte>, d: Decoded)
    requires LaidOut(b, d)
    ensures |d.mask| == 4 && |d.payload| < MAX_LENGTH
    ensures b == Encode(d.opcode, d.mask, d.payload) + d.rest
  {
    var len7 := b[1] % 128;
    var e := ExtendedSize(len7);
    var extended := b[2..2 + e];
    assert |extended| == e && PayloadLength(len7, extended) == |d.payload|;
    ShortestIsWritten(len7, extended);
    assert LengthField(|d.payload|) == [b[1]] + extended;
    assert |d.mask| == 4;
    Reassembled(b, e, d.opcode, d.mask, d.payload, d.rest);
  }

  /** Conversely the writer's form is the only one: an unfragmented frame decodes from nothing else. */
  lemma OnlyOneEncoding(b: seq<Byte>)
    requires Decode(b).Some? && Decode(b).value.fin
    ensures var d := Decode(b).value;
            && d.opcode < 16 && |d.payload| < MAX_LENGTH
            && b == Encode(d.opcode, d.mask, d.payload) + d.rest
  {
    DecodedIsLaidOut(b);
    LaidOutIsEncoded(b, Decode(b).value);
  }

  /** No length field that means `n` is shorter than the one written. */
  lemma LengthFieldIsShortest(n: nat, len7: nat, extended: seq<Byte>)
    requires n < MAX_LENGTH && len7 <= 127 && |extended| == ExtendedSize(len7)
    requires PayloadLength(len7, extended) == n
    ensures |LengthField(n)| <= 1 + |extended|
  {
    Powers();
    BigEndianOfRead(extended);
  }

  /** A frame the writer is asked for. */
  datatype Outgoing = Outgoing(opcode: Byte, mask: seq<Byte>, payload: seq<Byte>)

  predicate Sendable(o: Outgoing) {
    o.opcode < 16 && |o.mask| == 4 && |o.payload| < MAX_LENGTH
  }

  function Wire(frames: seq<Outgoing>): seq<Byte>
    requires forall i :: 0 <= i < |frames| ==> Sendable(frames[i])
  {
    if frames == [] then []
    else
      assert Sendable(frames[0]);
      Encode(frames[0].opcode, frames[0].mask, frames[0].payload) + Wire(frames[1..])
  }

  /** Decodes frame after frame until nothing is left; `None` if that goes wrong. */
  function DecodeAll(b: seq<Byte>): Option<seq<(nat, seq<Byte>)>>
    decreases |b|
  {
    if b == [] then Some([])
    else
      match Decode(b)
      case None => None
      case Some(d) =>
        match DecodeAll(d.rest)
        case None => None
        case Some(others) => Some([(d.opcode, d.payload)] + others)
  }

  /** A written frame and then anything that decodes. */
  lemma {:induction false} DecodesFirst(o: Outgoing, others: seq<Byte>)
    requires Sendable(o) && DecodeAll(others).Some?
    ensures DecodeAll(Encode(o.opcode, o.mask, o.payload) + others)
            == Some([(o.opcode as nat, o.payload)] + DecodeAll(others).value)
  {
    ClientFrameRoundTrip(o.opcode, o.mask, o.payload, others);
  }

  /** Any run of written frames decodes to their opcodes and payloads in order, nothing left over. */
  lemma {:induction false} WireRoundTrip(frames: seq<Outgoing>)
    requires forall i :: 0 <= i < |frames| ==> Sendable(frames[i])
    ensures DecodeAll(Wire(frames)).Some?
    ensures var out := DecodeAll(Wire(frames)).value;
            && |out| == |frames|
            && forall i :: 0 <= i < |frames| ==> out[i] == (frames[i].opcode, frames[i].payload)
  {
    if frames != [] {
      WireRoundTrip(frames[1..]);
      var o, others := frames[0], Wire(frames[1..]);
      var out := DecodeAll(others).value;
      DecodesFirst(o, others);
      assert Wire(frames) == Encode(o.opcode, o.mask, o.payload) + others;
      forall i | 0 < i < |frames|
        ensures ([(o.opcode as nat, o.payload)] + out)[i] == (frames[i].opcode, frames[i].payload)
      {
        assert frames[i] == frames[1..][i - 1];
      }
    }
  }

  // ---- reading frames -------------------------------------------------------------------------------

  datatype ReadError = EndOfStream | LengthOutOfRange

  /** What a read gives and what it leaves in the stream. */
  datatype Reading = Reading(result: Result<seq<Byte>, ReadError>, rest: seq<Byte>)

  const EXHAUSTED := Reading(Err(EndOfStream), [])

  /** Reads `n` bytes of payload; a length that does not fit a signed 64-bit number cannot be allocated. */
  function ReadPayload(b: seq<Byte>, n: nat): Reading {
    if n >= MAX_LENGTH then Reading(Err(LengthOutOfRange), b)
    else if |b| < n then EXHAUSTED
    else Reading(Ok(b[..n]), b[n..])
  }

  function ReadOne(b: seq<Byte>): Reading {
    if |b| < 2 then EXHAUSTED
    else
      var len7 := b[1] % 128;
      var e := ExtendedSize(len7);
      if |b| < 2 + e then EXHAUSTED
      else ReadPayload(b[2 + e..], PayloadLength(len7, b[2..2 + e]))
  }

  /** An unmasked frame in the sense of section 5.2, in any of the three length forms. */
  predicate IsServerFrame(f: seq<Byte>, payload: seq<Byte>) {
    && |f| >= 2
    && f[1] < 128
    && |payload| < MAX_LENGTH
    && (var e := ExtendedSize(f[1]);
        && |f| == 2 + e + |payload|
        && PayloadLength(f[1], f[2..2 + e]) == |payload|
        && f[2 + e..] == payload)
  }

  lemma ReadsAfterHeader(b: seq<Byte>, n: nat)
    requires |b| >= 2 && |b| >= 2 + ExtendedSize(b[1] % 128) + n && n < MAX_LENGTH
    requires PayloadLength(b[1] % 128, b[2..2 + ExtendedSize(b[1] % 128)]) == n
    ensures var body := b[2 + ExtendedSize(b[1] % 128)..];
            ReadOne(b) == Reading(Ok(body[..n]), body[n..])
  {
  }

  /** The reader takes exactly one frame off the stream and returns its payload. */
  lemma ReadsServerFrame(f: seq<Byte>, payload: seq<Byte>, rest: seq<Byte>)
    requires IsServerFrame(f, payload)
    ensures ReadOne(f + rest) == Reading(Ok(payload), rest)
  {
    var b, e := f + rest, ExtendedSize(f[1]);
    assert b[2..2 + e] == f[2..2 + e];
    assert b[2 + e..] == payload + rest;
    ReadsAfterHeader(b, |payload|);
  }

  lemma SlicesOfPrefix(b: seq<Byte>, i: nat, j: nat, m: nat)
    requires i <= j <= m <= |b|
    ensures b[..m][i..j] == b[i..j] && b[..m][j..] == b[j..m]
  {
  }

  /** Where the one frame just read lay. */
  lemma ReadParts(b: seq<Byte>) returns (n: nat)
    requires ReadOne(b).result.Ok?
    ensures var e := ExtendedSize(b[1] % 128);
            && n < MAX_LENGTH && |b| >= 2 + e + n
            && PayloadLength(b[1] % 128, b[2..2 + e]) == n
            && ReadOne(b) == Reading(Ok(b[2 + e..2 + e + n]), b[2 + e + n..])
  {
    n := |ReadOne(b).result.value|;
    var start := 2 + ExtendedSize(b[1] % 128);
    assert b[start..][..n] == b[start..start + n] && b[start..][n..] == b[start + n..];
  }

  lemma FrameOfParts(b: seq<Byte>, e: nat, n: nat)
    requires |b| >= 2 + e + n && n < MAX_LENGTH && b[1] < 128 && e == ExtendedSize(b[1])
    requires PayloadLength(b[1], b[2..2 + e]) == n
    ensures IsServerFrame(b[..2 + e + n], b[2 + e..2 + e + n])
    ensures b == b[..2 + e + n] + b[2 + e + n..]
  {
    SlicesOfPrefix(b, 2, 2 + e, 2 + e + n);
  }

  /** And nothing else is ever returned: what was read is one frame, unless its mask bit was set. */
  lemma ReadsOnlyServerFrames(b: seq<Byte>)
    requires ReadOne(b).result.Ok? && b[1] < 128
    ensures var r := ReadOne(b);
            |r.rest| <= |b| && IsServerFrame(b[..|b| - |r.rest|], r.result.value)
            && b == b[..|b| - |r.rest|] + r.rest
  {
    var n := ReadParts(b);
    FrameOfParts(b, ExtendedSize(b[1]), n);
  }

  /**
   * The mask bit of a frame from the server is ignored: of a masked frame the reader returns the
   * masking key and what follows it, and leaves the last four bytes in the stream.
   */
  lemma MaskedFrameIsMisread(opcode: Byte, mask: seq<Byte>, payload: seq<Byte>, rest: seq<Byte>)
    requires |mask| == 4 && |payload| < MAX_LENGTH
    ensures var body := mask + Masked(payload, mask) + rest;
            ReadOne(Encode(opcode, mask, payload) + rest)
            == Reading(Ok(body[..|payload|]), body[|payload|..])
  {
    var b, f := Encode(opcode, mask, payload) + rest, LengthField(|payload|);
    EncodedHeader(opcode, mask, payload, rest);
    assert b[1 + |f|..] == mask + Masked(payload, mask) + rest;
    ReadsAfterHeader(b, |payload|);
  }

  /** What was read before is kept in front of what the remaining reads give. */
  function Prepend(p: seq<Byte>, r: (Result<seq<seq<Byte>>, ReadError>, seq<Byte>))
    : (Result<seq<seq<Byte>>, ReadError>, seq<Byte>)
  {
    if r.0.Ok? then (Ok([p] + r.0.value), r.1) else r
  }

  /** `k` reads one after the other. */
  function ReadMany(b: seq<Byte>, k: nat): (Result<seq<seq<Byte>>, ReadError>, seq<Byte>) {
    if k == 0 then (Ok([]), b)
    else
      var r := ReadOne(b);
      if r.result.Err? then (Err(r.result.error), r.rest)
      else Prepend(r.result.value, ReadMany(r.rest, k - 1))
  }

  function Join(frames: seq<seq<Byte>>): seq<Byte> {
    if frames == [] then [] else frames[0] + Join(frames[1..])
  }

  predicate AreServerFrames(frames: seq<seq<Byte>>, payloads: seq<seq<Byte>>) {
    |frames| == |payloads| && forall i :: 0 <= i < |frames| ==> IsServerFrame(frames[i], payloads[i])
  }

  lemma ReadsFrameThenMore(f: seq<Byte>, payload: seq<Byte>, others: seq<Byte>, k: nat)
    requires IsServerFrame(f, payload)
    ensures ReadMany(f + others, k + 1) == Prepend(payload, ReadMany(others, k))
  {
    ReadsServerFrame(f, payload, others);
  }

  lemma JoinSplits(frames: seq<seq<Byte>>, rest: seq<Byte>)
    requires frames != []
    ensures Join(frames) + rest == frames[0] + (Join(frames[1..]) + rest)
  {
  }

  lemma {:induction false} ReadsFramesInOrder(frames: seq<seq<Byte>>, payloads: seq<seq<Byte>>,
                                              rest: seq<Byte>)
    requires AreServerFrames(frames, payloads)
    ensures ReadMany(Join(frames) + rest, |frames|) == (Ok(payloads), rest)
  {
    if frames == [] {
      assert Join(frames) + rest == rest;
    } else {
      JoinSplits(frames, rest);
      ReadsFrameThenMore(frames[0], payloads[0], Join(frames[1..]) + rest, |frames| - 1);
      ReadsFramesInOrder(frames[1..], payloads[1..], rest);
      assert payloads == [payloads[0]] + payloads[1..];
    }
  }

  // ---- the opening handshake ---------------------------------------------------------------------

  const MAX_HEAD := 8192
  const HEAD_END: seq<Byte> := [13, 10, 13, 10]
  const SWITCHING: seq<Byte> := [49, 48, 49]

  predicate EndsHead(s: seq<Byte>, n: int) {
    OccursAt(s, HEAD_END, n - 4)
  }

  /** The head of `s` is its first `n` bytes: they end with an empty line, and no fewer do. */
  ghost predicate HeadIs(s: seq<Byte>, n: int) {
    EndsHead(s, n) && forall m: int :: m < n ==> !EndsHead(s, m)
  }

  ghost predicate NoHeadWithin(s: seq<Byte>, n: int) {
    forall m: int :: m <= n ==> !EndsHead(s, m)
  }

  lemma EndsWithinPrefix(s: seq<Byte>, k: nat, m: int)
    requires m <= k <= |s|
    ensures EndsHead(s[..k], m) <==> EndsHead(s, m)
  {
    if 4 <= m {
      assert s[..k][m - 4..m] == s[m - 4..m];
    }
  }

  /** Growing the buffer by one byte completes an empty line exactly when it now ends with one. */
  lemma ContainsGrows(s: seq<Byte>, k: nat)
    requires k <= |s|
    ensures Contains(s[..k], HEAD_END) <==> !NoHeadWithin(s, k)
  {
    var buf := s[..k];
    if Contains(buf, HEAD_END) {
      var i: int :| 0 <= i <= |buf| && OccursAt(buf, HEAD_END, i);
      EndsWithinPrefix(s, k, i + 4);
      assert EndsHead(s, i + 4);
    }
    if !NoHeadWithin(s, k) {
      var m: int :| m <= k && EndsHead(s, m);
      EndsWithinPrefix(s, k, m);
      assert OccursAt(buf, HEAD_END, m - 4);
    }
  }

  datatype Upgrade = Upgraded | ReadFailed | TooLarge | UnexpectedStatus

  /** Where the handshake leaves the stream: `used` bytes of `s` are gone. */
  ghost predicate UpgradeIs(s: seq<Byte>, r: Upgrade, used: nat) {
    match r
    case Upgraded => used <= MAX_HEAD && HeadIs(s, used) && Contains(s[..used], SWITCHING)
    case UnexpectedStatus => used <= MAX_HEAD && HeadIs(s, used) && !Contains(s[..used], SWITCHING)
    case TooLarge => used == MAX_HEAD + 1 <= |s| && NoHeadWithin(s, MAX_HEAD)
    case ReadFailed => used == |s| <= MAX_HEAD && NoHeadWithin(s, |s|)
  }

  /** The outcome is determined, and so is the number of bytes consumed. */
  lemma UpgradeIsDetermined(s: seq<Byte>, r: Upgrade, used: nat, r': Upgrade, used': nat)
    requires UpgradeIs(s, r, used) && UpgradeIs(s, r', used')
    ensures r == r' && used == used'
  {
    if HeadIs(s, used) && HeadIs(s, used') {
      assert used == used';
    }
  }

  predicate HeadWithin(s: seq<Byte>, n: int) {
    4 <= n <= |s| && n <= 8192 && EndsHead(s, n)
  }

  /**
   * The handshake succeeds if and only if an empty line ends within 8192 bytes and what comes up to
   * the first one mentions 101; the head is too large if and only if more came without an empty line.
   */
  lemma UpgradeSucceedsIff(s: seq<Byte>, r: Upgrade, used: nat)
    requires UpgradeIs(s, r, used)
    ensures r == Upgraded <==>
            exists n :: HeadWithin(s, n) && HeadIs(s, n) && Contains(s[..n], SWITCHING)
    ensures r == TooLarge || r == ReadFailed <==> forall n :: !HeadWithin(s, n)
    ensures r == TooLarge <==> |s| > 8192 && forall n :: !HeadWithin(s, n)
  {
    if r == Upgraded || r == UnexpectedStatus {
      assert HeadWithin(s, used);
    }
    if n :| HeadWithin(s, n) && HeadIs(s, n) && Contains(s[..n], SWITCHING) {
      UpgradeIsDetermined(s, r, used, Upgraded, n);
    }
  }

  lemma HeadThenAnything(head: seq<Byte>, rest: seq<Byte>)
    requires HeadIs(head, |head|)
    ensures HeadIs(head + rest, |head|)
  {
    var s := head + rest;
    assert s[..|head|] == head;
    forall m: int | m <= |head|
      ensures EndsHead(s, m) <==> EndsHead(head, m)
    {
      EndsWithinPrefix(s, |head|, m);
    }
  }

  /**
   * A head of at most 8192 bytes that mentions 101, followed by any unmasked frames: the handshake
   * can only succeed, consuming exactly the head, and the reads that follow return the payloads in
   * order and leave exactly what came after the frames.
   */
  lemma HandshakeThenFrames(head: seq<Byte>, frames: seq<seq<Byte>>, payloads: seq<seq<Byte>>,
                            rest: seq<Byte>, r: Upgrade, used: nat)
    requires HeadIs(head, |head|) && |head| <= MAX_HEAD && Contains(head, SWITCHING)
    requires AreServerFrames(frames, payloads)
    requires UpgradeIs(head + (Join(frames) + rest), r, used)
    ensures r == Upgraded && used == |head|
    ensures ReadMany((head + (Join(frames) + rest))[used..], |frames|) == (Ok(payloads), rest)
  {
    var s := head + (Join(frames) + rest);
    HeadThenAnything(head, Join(frames) + rest);
    assert s[..|head|] == head;
    UpgradeIsDetermined(s, r, used, Upgraded, |head|);
    ReadsFramesInOrder(frames, payloads, rest);
  }

  /** The check looks for 101 anywhere in the head, so a refusal whose reason mentions it passes. */
  lemma MentionIsEnough(line: seq<Byte>)
    requires 13 !in line && |line| + 4 <= 8192 && Contains(line, [49, 48, 49])
    ensures UpgradeIs(line + [13, 10, 13, 10], Upgraded, |line| + 4)
  {
    var s := line + HEAD_END;
    var i: int :| 0 <= i <= |line| && OccursAt(line, SWITCHING, i);
    assert s[i..i + 3] == line[i..i + 3];
    assert OccursAt(s, SWITCHING, i);
    assert s[..|line| + 4] == s;
    assert EndsHead(s, |s|);
    forall m: int | 4 <= m < |s|
      ensures !EndsHead(s, m)
    {
      assert line[m - 4] in line && s[m - 4] == line[m - 4];
      assert s[m - 4..m][0] != HEAD_END[0];
    }
  }

  // ---- the connection ----------------------------------------------------------------------------

  /** `n` shifted right by `k` bytes. */
  function Shift(n: nat, k: nat): nat {
    if k == 0 then n else Shift(n / 256, k - 1)
  }

  lemma {:induction false} ShiftOneMore(n: nat, k: nat)
    ensures Shift(n, k + 1) == Shift(n, k) / 256
  {
    if k != 0 {
      ShiftOneMore(n / 256, k - 1);
    }
  }

  lemma {:induction false} ShiftedOut(n: nat, k: nat)
    requires n < Pow256(k)
    ensures Shift(n, k) == 0
  {
    if k != 0 {
      ShiftedOut(n / 256, k - 1);
    }
  }

  lemma ReadGrows(b: seq<Byte>, i: nat)
    requires i < |b|
    ensures FromBigEndian(b[..i + 1]) == 256 * FromBigEndian(b[..i]) + b[i]
  {
    assert Init(b[..i + 1]) == b[..i];
  }

  lemma ReadsFit(b: seq<Byte>)
    requires |b| == 8
    ensures FromBigEndian(b) < 2 * MAX_LENGTH
  {
    Powers();
    BigEndianOfRead(b);
  }

  lemma ShorterReadsFit(b: seq<Byte>, i: nat)
    requires i <= |b|
    ensures FromBigEndian(b[..i]) <= FromBigEndian(b)
    decreases |b| - i
  {
    if i < |b| {
      ReadGrows(b, i);
      ShorterReadsFit(b, i + 1);
    } else {
      assert b[..i] == b;
    }
  }

  /** A shift of the 64-bit register loses nothing while the value fits. */
  lemma RegisterHolds(high: nat, low: Byte)
    requires 256 * high + low < 2 * MAX_LENGTH
    ensures (high * 256 + low) % (2 * MAX_LENGTH) == 256 * high + low
  {
  }

  class WsConn {
    /** What the server has sent and the client has not read. */
    var incoming: seq<Byte>
    /** What the client has written. */
    var sent: seq<Byte>

    constructor (stream: seq<Byte>)
      ensures incoming == stream && sent == []
    {
      incoming, sent := stream, [];
    }

    /** `io.ReadFull`: a stream that ends early is read to its end. */
    method ReadFull(n: nat) returns (r: Option<seq<Byte>>)
      modifies this`incoming
      ensures r.Some? <==> n <= |old(incoming)|
      ensures r.Some? ==> r.value == old(incoming)[..n] && incoming == old(incoming)[n..]
      ensures r.None? ==> incoming == []
    {
      if |incoming| < n {
        incoming := [];
        return None;
      }
      r := Some(incoming[..n]);
      incoming := incoming[n..];
    }

    /** The eight bytes of the long form, highest first. */
    method AppendLength64(front: seq<Byte>, length: nat) returns (header: seq<Byte>)
      requires length < MAX_LENGTH
      ensures header == front + BigEndian(length, 8)
    {
      header := front;
      var left := 8;
      Powers();
      ShiftedOut(length, 8);
      while left > 0
        invariant 0 <= left <= 8
        invariant header == front + BigEndian(Shift(length, left), 8 - left)
      {
        left := left - 1;
        ShiftOneMore(length, left);
        header := header + [Shift(length, left) % 256];
      }
    }

    method WriteHeader(opcode: Byte, length: nat) returns (header: seq<Byte>)
      requires length < MAX_LENGTH
      ensures header == [WithFin(opcode)] + LengthField(length)
    {
      header := [if opcode < 128 then 128 + opcode else opcode];
      if length < 126 {
        header := header + [128 + length];
      } else if length <= 0xFFFF {
        header := header + [128 + 126, length / 256 % 256, length % 256];
        assert BigEndian(length, 2) == BigEndian(length / 256, 1) + [length % 256];
        assert BigEndian(length / 256, 1) == [length / 256 % 256];
      } else {
        header := AppendLength64(header + [128 + 127], length);
      }
    }

    method WriteFrame(opcode: Byte, payload: seq<Byte>, mask: seq<Byte>)
      requires |mask| == 4 && |payload| < MAX_LENGTH
      modifies this`sent
      ensures sent == old(sent) + Encode(opcode, mask, payload)
    {
      var header := WriteHeader(opcode, |payload|);
      header := header + mask;
      var masked: seq<Byte> := [];
      var i := 0;
      while i < |payload|
        invariant 0 <= i <= |payload|
        invariant masked == Masked(payload, mask)[..i]
      {
        masked := masked + [Xor(payload[i], mask[i % 4])];
        i := i + 1;
      }
      sent := sent + (header + masked);
    }

    /** The extended length of eight bytes, shifted together in a 64-bit register. */
    method ReadLength64(extended: seq<Byte>) returns (length: nat)
      requires |extended| == 8
      ensures length == FromBigEndian(extended)
    {
      length := 0;
      var i := 0;
      ReadsFit(extended);
      while i < 8
        invariant 0 <= i <= 8
        invariant length == FromBigEndian(extended[..i])
      {
        ReadGrows(extended, i);
        ShorterReadsFit(extended, i + 1);
        RegisterHolds(length, extended[i]);
        length := (length * 256 + extended[i]) % (2 * MAX_LENGTH);
        i := i + 1;
      }
      assert extended[..8] == extended;
    }

    method ReadFrame() returns (r: Result<seq<Byte>, ReadError>)
      modifies this`incoming
      ensures Reading(r, incoming) == ReadOne(old(incoming))
    {
      ghost var b := incoming;
      var header := ReadFull(2);
      if header.None? {
        return Err(EndOfStream);
      }
      var length: nat := header.value[1] % 128;
      if length == 126 {
        var extended := ReadFull(2);
        if extended.None? {
          return Err(EndOfStream);
        }
        assert extended.value == b[2..4];
        var high: nat, low: nat := extended.value[0], extended.value[1];
        length := high * 256 + low;
        ReadTwo(extended.value);
      } else if length == 127 {
        var extended := ReadFull(8);
        if extended.None? {
          return Err(EndOfStream);
        }
        assert extended.value == b[2..10];
        length := ReadLength64(extended.value);
      }
      assert incoming == b[2 + ExtendedSize(b[1] % 128)..];
      if length >= MAX_LENGTH {
        return Err(LengthOutOfRange);
      }
      var payload := ReadFull(length);
      if payload.None? {
        return Err(EndOfStream);
      }
      return Ok(payload.value);
    }

    /** Byte by byte up to the end of the head, so that nothing after it is taken. */
    method ReadUpgradeResponse() returns (r: Upgrade)
      modifies this`incoming
      ensures |incoming| <= |old(incoming)|
      ensures var used := |old(incoming)| - |incoming|;
              UpgradeIs(old(incoming), r, used) && incoming == old(incoming)[used..]
    {
      ghost var s := incoming;
      var buf: seq<Byte> := [];
      while !Contains(buf, HEAD_END)
        invariant |buf| <= |s| && |buf| <= MAX_HEAD && buf == s[..|buf|] && incoming == s[|buf|..]
        invariant forall m: int :: m < |buf| ==> !EndsHead(s, m)
        decreases |incoming|
      {
        ContainsGrows(s, |buf|);
        if incoming == [] {
          return ReadFailed;
        }
        buf := buf + [incoming[0]];
        incoming := incoming[1..];
        if |buf| > MAX_HEAD {
          return TooLarge;
        }
      }
      ContainsGrows(s, |buf|);
      return if Contains(buf, SWITCHING) then Upgraded else UnexpectedStatus;
    }

    /** The best-effort close: a close frame with no payload. */
    method Close(mask: seq<Byte>)
      requires |mask| == 4
      modifies this`sent
      ensures sent == old(sent) + Encode(8, mask, [])
    {
      WriteFrame(8, [], mask);
    }
  }

  lemma ReadTwo(b: seq<Byte>)
    requires |b| == 2
    ensures FromBigEndian(b) == (b[0] as nat) * 256 + b[1]
  {
    var high := Init(b);
    assert high == [b[0]] && Init(high) == [] && Last(high) == b[0];
    assert FromBigEndian(high) == b[0];
  }
}
