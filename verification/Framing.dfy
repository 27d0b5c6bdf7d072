// The frames of an IPC connection as bytes: a fixed twelve-byte header in front of each payload, in the
// byte order of a little-endian host, and what a reader makes of a stream of them.
module Framing {
  import opened Common

  const MAGIC: U32 := 0x53495043
  const VERSION: U16 := 1
  const HEADER_SIZE := 12

  datatype FrameHeader = FrameHeader(magic: U32, version: U16, kind: U16, length: U32)
  datatype Frame = Frame(header: FrameHeader, payload: Bytes)

  // ----- numbers as bytes -----

  function LittleEndian(n: nat, size: nat): (r: Bytes)
    ensures |r| == size
  {
    if size == 0 then [] else [n % 256] + LittleEndian(n / 256, size - 1)
  }

  function Number(bytes: Bytes): (n: nat) {
    if bytes == [] then 0 else bytes[0] + 256 * Number(bytes[1..])
  }

  function Power256(n: nat): nat {
    if n == 0 then 1 else 256 * Power256(n - 1)
  }

  lemma {:induction false} NumberBound(bytes: Bytes)
    ensures Number(bytes) < Power256(|bytes|)
  {
    if bytes != [] {
      NumberBound(bytes[1..]);
    }
  }

  lemma {:induction false} NumberOfBytes(n: nat, size: nat)
    requires n < Power256(size)
    ensures Number(LittleEndian(n, size)) == n
  {
    if size > 0 {
      assert LittleEndian(n, size)[1..] == LittleEndian(n / 256, size - 1);
      NumberOfBytes(n / 256, size - 1);
    }
  }

  lemma {:induction false} BytesOfNumber(bytes: Bytes)
    ensures LittleEndian(Number(bytes), |bytes|) == bytes
  {
    if bytes != [] {
      BytesOfNumber(bytes[1..]);
    }
  }

  lemma Widths()
    ensures Power256(2) == 0x1_0000 && Power256(4) == TWO_TO_32
  {
    assert Power256(1) == 256 && Power256(3) == 0x100_0000;
  }

  // ----- the header -----

  function HeaderBytes(h: FrameHeader): (r: Bytes)
    ensures |r| == HEADER_SIZE
  {
    LittleEndian(h.magic, 4) + LittleEndian(h.version, 2) + LittleEndian(h.kind, 2) + LittleEndian(h.length, 4)
  }

  function AsU16(bytes: Bytes): U16
    requires |bytes| == 2
  {
    NumberBound(bytes);
    Widths();
    Number(bytes)
  }

  function AsU32(bytes: Bytes): U32
    requires |bytes| == 4
  {
    NumberBound(bytes);
    Widths();
    Number(bytes)
  }

  function HeaderOf(bytes: Bytes): FrameHeader
    requires |bytes| == HEADER_SIZE
  {
    FrameHeader(AsU32(bytes[..4]), AsU16(bytes[4..6]), AsU16(bytes[6..8]), AsU32(bytes[8..]))
  }

  // The two are inverse to each other.
  lemma HeaderRoundTrip(h: FrameHeader)
    ensures HeaderOf(HeaderBytes(h)) == h
  {
    var a, b, c, d := LittleEndian(h.magic, 4), LittleEndian(h.version, 2), LittleEndian(h.kind, 2),
                      LittleEndian(h.length, 4);
    var r := HeaderBytes(h);
    assert r == a + b + c + d;
    assert r[..4] == a && r[4..6] == b && r[6..8] == c && r[8..] == d;
    Widths();
    NumberOfBytes(h.magic, 4);
    NumberOfBytes(h.version, 2);
    NumberOfBytes(h.kind, 2);
    NumberOfBytes(h.length, 4);
  }

  lemma BytesRoundTrip(bytes: Bytes)
    requires |bytes| == HEADER_SIZE
    ensures HeaderBytes(HeaderOf(bytes)) == bytes
  {
    BytesOfNumber(bytes[..4]);
    BytesOfNumber(bytes[4..6]);
    BytesOfNumber(bytes[6..8]);
    BytesOfNumber(bytes[8..]);
    assert bytes == bytes[..4] + bytes[4..6] + bytes[6..8] + bytes[8..];
  }

  // Where the fields are: the magic, then version, kind and length, each with its lowest byte first.
  lemma HeaderLayout(h: FrameHeader)
    ensures var r: seq<int> := HeaderBytes(h);
            && r[0] + 0x100 * r[1] + 0x1_0000 * r[2] + 0x100_0000 * r[3] == h.magic
            && r[4] + 0x100 * r[5] == h.version && r[6] + 0x100 * r[7] == h.kind
            && r[8] + 0x100 * r[9] + 0x1_0000 * r[10] + 0x100_0000 * r[11] == h.length
  {
    var a, b, c, d := LittleEndian(h.magic, 4), LittleEndian(h.version, 2), LittleEndian(h.kind, 2),
                      LittleEndian(h.length, 4);
    assert HeaderBytes(h) == a + b + c + d;
    Widths();
    NumberOfBytes(h.magic, 4);
    NumberOfBytes(h.version, 2);
    NumberOfBytes(h.kind, 2);
    NumberOfBytes(h.length, 4);
    FourBytes(a);
    FourBytes(d);
    TwoBytes(b);
    TwoBytes(c);
  }

  lemma TwoBytes(bytes: Bytes)
    requires |bytes| == 2
    ensures var r: seq<int> := bytes;
            Number(bytes) == r[0] + 0x100 * r[1]
  {
    assert Number(bytes[1..]) == bytes[1] + 256 * Number(bytes[1..][1..]);
  }

  lemma FourBytes(bytes: Bytes)
    requires |bytes| == 4
    ensures var r: seq<int> := bytes;
            Number(bytes) == r[0] + 0x100 * r[1] + 0x1_0000 * r[2] + 0x100_0000 * r[3]
  {
    assert bytes[2..] == bytes[1..][1..];
    assert Number(bytes[1..]) == bytes[1] + 256 * Number(bytes[2..]);
    TwoBytes(bytes[2..]);
  }

  // Copying a field into the header's bytes.
  method CopyField(bytes: array<Byte>, at: nat, n: nat, size: nat)
    requires at + size <= bytes.Length
    modifies bytes
    ensures bytes[..] == old(bytes[..at]) + LittleEndian(n, size) + old(bytes[at + size..])
  {
    var rest := n;
    ghost var before := bytes[..];
    for i := 0 to size
      invariant bytes[..at] == before[..at] && bytes[at + i..] == before[at + i..]
      invariant bytes[at..at + i] + LittleEndian(rest, size - i) == LittleEndian(n, size)
    {
      ghost var done := bytes[at..at + i];
      bytes[at + i] := rest % 256;
      assert bytes[at..at + i + 1] == done + [rest % 256];
      rest := rest / 256;
    }
    assert bytes[..] == bytes[..at] + bytes[at..at + size] + bytes[at + size..];
  }

  method SerializeFrameHeader(header: FrameHeader) returns (bytes: array<Byte>)
    ensures fresh(bytes) && bytes[..] == HeaderBytes(header)
  {
    bytes := new Byte[HEADER_SIZE](_ => 0);
    CopyField(bytes, 0, header.magic, 4);
    CopyField(bytes, 4, header.version, 2);
    CopyField(bytes, 6, header.kind, 2);
    CopyField(bytes, 8, header.length, 4);
  }

  // Fails on short or missing data, and otherwise if and only if the magic is not the protocol's.
  method DeserializeFrameHeader(data: array?<Byte>, size: nat, header: FrameHeader)
    returns (ok: bool, parsed: FrameHeader)
    requires data != null ==> size <= data.Length
    ensures data == null || size < HEADER_SIZE ==> !ok && parsed == header
    ensures data != null && size >= HEADER_SIZE ==>
      parsed == HeaderOf(data[..HEADER_SIZE]) && ok == (parsed.magic == MAGIC)
  {
    if data == null || size < HEADER_SIZE {
      return false, header;
    }
    var bytes := data[..HEADER_SIZE];
    parsed := header.(magic := AsU32(bytes[..4]));
    parsed := parsed.(version := AsU16(bytes[4..6]));
    parsed := parsed.(kind := AsU16(bytes[6..8]));
    parsed := parsed.(length := AsU32(bytes[8..]));
    ok := parsed.magic == MAGIC;
  }

  // ----- streams of frames -----

  function Wire(f: Frame): Bytes {
    HeaderBytes(f.header) + f.payload
  }

  function WireAll(frames: seq<Frame>): Bytes {
    if frames == [] then [] else Wire(frames[0]) + WireAll(frames[1..])
  }

  // A frame that a sender builds: the header names the protocol and the size of the payload.
  predicate WellFormed(f: Frame) {
    f.header.magic == MAGIC && f.header.length == |f.payload|
  }

  // What a reader gets out of a stream that ends after these bytes.
  function FramesIn(stream: Bytes): seq<Frame> {
    if |stream| < HEADER_SIZE then []
    else
      var header := HeaderOf(stream[..HEADER_SIZE]);
      var rest := stream[HEADER_SIZE..];
      if header.magic != MAGIC || |rest| < header.length then []
      else [Frame(header, rest[..header.length])] + FramesIn(rest[header.length..])
  }

  lemma FirstFrame(f: Frame, rest: Bytes)
    requires WellFormed(f)
    ensures FramesIn(Wire(f) + rest) == [f] + FramesIn(rest)
  {
    var stream := Wire(f) + rest;
    assert stream[..HEADER_SIZE] == HeaderBytes(f.header);
    HeaderRoundTrip(f.header);
    assert stream[HEADER_SIZE..] == f.payload + rest;
    assert (f.payload + rest)[..|f.payload|] == f.payload;
    assert (f.payload + rest)[|f.payload|..] == rest;
  }

  // The first w + 1 frames, with the first one apart.
  lemma TakeCons(f: Frame, rest: seq<Frame>, w: nat)
    requires w <= |rest|
    ensures ([f] + rest)[..w + 1] == [f] + rest[..w]
    ensures WireAll([f] + rest[..w]) == Wire(f) + WireAll(rest[..w])
  {
    assert ([f] + rest[..w])[1..] == rest[..w];
  }

  lemma Regroup<T>(a: seq<T>, b: seq<T>, c: seq<T>)
    ensures (a + b) + c == a + (b + c)
  {
  }

  // Well-formed frames come out as they went in, in order, whatever follows them on the stream.
  lemma {:induction false} FramesSurvive(frames: seq<Frame>, rest: Bytes)
    requires forall i :: 0 <= i < |frames| ==> WellFormed(frames[i])
    ensures FramesIn(WireAll(frames) + rest) == frames + FramesIn(rest)
  {
    if frames == [] {
      assert WireAll(frames) + rest == rest;
    } else {
      var f, tail := frames[0], frames[1..];
      FramesSurvive(tail, rest);
      FirstFrame(f, WireAll(tail) + rest);
      Regroup(Wire(f), WireAll(tail), rest);
      Regroup([f], tail, FramesIn(rest));
      assert frames == [f] + tail;
    }
  }

  lemma {:induction false} WireAllSnoc(frames: seq<Frame>, f: Frame)
    ensures WireAll(frames + [f]) == WireAll(frames) + Wire(f)
  {
    if frames == [] {
      assert [f][1..] == [] && [] + [f] == [f];
    } else {
      var tail := frames[1..];
      assert (frames + [f])[1..] == tail + [f];
      WireAllSnoc(tail, f);
      Regroup(Wire(frames[0]), WireAll(tail), Wire(f));
    }
  }

  // A stream made of one frame after the other, each sent whole, is read as exactly these frames.
  lemma SentIsRead(frames: seq<Frame>)
    requires forall i :: 0 <= i < |frames| ==> WellFormed(frames[i])
    ensures FramesIn(WireAll(frames)) == frames
  {
    FramesSurvive(frames, []);
    assert WireAll(frames) + [] == WireAll(frames);
    assert frames + [] == frames;
  }

  // Nothing comes out of a frame that is cut off.
  lemma CutFrame(f: Frame, n: nat)
    requires WellFormed(f) && n < |Wire(f)|
    ensures FramesIn(Wire(f)[..n]) == []
  {
    if n >= HEADER_SIZE {
      assert Wire(f)[..n][..HEADER_SIZE] == HeaderBytes(f.header);
      HeaderRoundTrip(f.header);
    }
  }

  // After sends of whole frames, the last one perhaps only in part, the peer gets the whole ones.
  lemma PartlySent(frames: seq<Frame>, f: Frame, k: nat)
    requires forall i :: 0 <= i < |frames| ==> WellFormed(frames[i])
    requires WellFormed(f) && k < |Wire(f)|
    ensures FramesIn(WireAll(frames) + Wire(f)[..k]) == frames
  {
    FramesSurvive(frames, Wire(f)[..k]);
    CutFrame(f, k);
  }

  // A stream that breaks off in its first frame, and one that goes beyond it.
  lemma CutInFirst(f: Frame, rest: seq<Frame>, n: nat)
    requires WellFormed(f) && n < |Wire(f)|
    ensures FramesIn((Wire(f) + WireAll(rest))[..n]) == []
  {
    assert (Wire(f) + WireAll(rest))[..n] == Wire(f)[..n];
    CutFrame(f, n);
  }

  lemma CutAfterFirst(f: Frame, rest: seq<Frame>, n: nat)
    requires WellFormed(f) && |Wire(f)| <= n <= |Wire(f)| + |WireAll(rest)|
    ensures FramesIn((Wire(f) + WireAll(rest))[..n]) == [f] + FramesIn(WireAll(rest)[..n - |Wire(f)|])
  {
    assert (Wire(f) + WireAll(rest))[..n] == Wire(f) + WireAll(rest)[..n - |Wire(f)|];
    FirstFrame(f, WireAll(rest)[..n - |Wire(f)|]);
  }

  // The first whole frames of a stream that breaks off after n bytes.
  predicate WholeFrames(frames: seq<Frame>, n: nat, whole: nat) {
    && whole <= |frames| && |WireAll(frames[..whole])| <= n
    && (whole < |frames| ==> n < |WireAll(frames[..whole + 1])|)
  }

  lemma OneMoreWhole(f: Frame, rest: seq<Frame>, n: nat, whole: nat)
    requires |Wire(f)| <= n && WholeFrames(rest, n - |Wire(f)|, whole)
    ensures WholeFrames([f] + rest, n, whole + 1) && ([f] + rest)[..whole + 1] == [f] + rest[..whole]
  {
    TakeCons(f, rest, whole);
    if whole < |rest| {
      TakeCons(f, rest, whole + 1);
    }
  }

  // A stream that breaks off anywhere yields exactly the frames that were sent completely.
  lemma {:induction false} CutStream(frames: seq<Frame>, n: nat) returns (whole: nat)
    requires forall i :: 0 <= i < |frames| ==> WellFormed(frames[i])
    requires n <= |WireAll(frames)|
    ensures WholeFrames(frames, n, whole) && FramesIn(WireAll(frames)[..n]) == frames[..whole]
  {
    whole := 0;
    if frames != [] {
      var f, rest := frames[0], frames[1..];
      assert frames == [f] + rest;
      if n < |Wire(f)| {
        CutInFirst(f, rest, n);
        TakeCons(f, rest, 0);
      } else {
        var w := CutStream(rest, n - |Wire(f)|);
        CutAfterFirst(f, rest, n);
        OneMoreWhole(f, rest, n, w);
        whole := w + 1;
      }
    }
  }

  // A frame with a foreign magic ends what the reader gets.
  lemma ForeignMagicEnds(frames: seq<Frame>, f: Frame, rest: Bytes)
    requires forall i :: 0 <= i < |frames| ==> WellFormed(frames[i])
    requires f.header.magic != MAGIC
    ensures FramesIn(WireAll(frames) + (Wire(f) + rest)) == frames
  {
    FramesSurvive(frames, Wire(f) + rest);
    assert (Wire(f) + rest)[..HEADER_SIZE] == HeaderBytes(f.header);
    HeaderRoundTrip(f.header);
  }
}
