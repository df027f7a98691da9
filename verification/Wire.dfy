/** The primitive wire formats of packets/packets.go: big-endian integers, length-prefixed binary
    data and variable byte integers (section 1.5 of MQTT 5.0), with their round trips. */
module Wire {
  import opened Basics

  const MAX_VBI := 268435455
  const MAX_STRING := 65535

  // ---- Writers ----

  function U16(n: uint16): seq<byte> {
    [n / 256, n % 256]
  }

  function U32(n: uint32): seq<byte> {
    [n / 0x100_0000, n / 0x1_0000 % 256, n / 256 % 256, n % 256]
  }

  /** What writeString and writeBinary keep of their argument. */
  function Truncated(d: seq<byte>): (r: seq<byte>)
    ensures |r| <= MAX_STRING && r <= d
    ensures |d| <= MAX_STRING ==> r == d
  {
    if |d| > MAX_STRING then d[..MAX_STRING] else d
  }

  function Bin(d: seq<byte>): seq<byte> {
    U16(|Truncated(d)|) + Truncated(d)
  }

  /** Variable byte integer: seven bits a byte, low end first, the top bit set on all but the last. */
  function Vbi(n: nat): (r: seq<byte>)
    ensures |r| >= 1
  {
    if n < 128 then [n] else [n % 128 + 128] + Vbi(n / 128)
  }

  /** encodeVBI refuses what does not fit in four bytes. */
  function EncodeVbi(n: int): (r: Result<seq<byte>>)
    ensures r.Ok? <==> 0 <= n <= MAX_VBI
  {
    if n < 0 || n > MAX_VBI then Err(TooLong) else Ok(Vbi(n))
  }

  // ---- Readers ----

  function ReadByte(s: seq<byte>): Read<byte> {
    if s == [] then Fail(EOF) else Done(s[0], s[1..])
  }

  function ReadU16(s: seq<byte>): Read<uint16> {
    if |s| < 2 then Fail(EOF) else Done(s[0] as int * 256 + s[1], s[2..])
  }

  function ReadU32(s: seq<byte>): Read<uint32> {
    if |s| < 4 then Fail(EOF)
    else Done(s[0] as int * 0x100_0000 + s[1] as int * 0x1_0000 + s[2] as int * 256 + s[3], s[4..])
  }

  /** readBinary: io.ReadFull reports EOF when nothing could be read and UnexpectedEOF otherwise. */
  function ReadBin(s: seq<byte>): (r: Read<seq<byte>>)
    ensures r.Done? ==> |r.rest| + |r.value| + 2 == |s| && |r.value| <= MAX_STRING
  {
    var (size, t) :- ReadU16(s);
    if size <= |t| then Done(t[..size], t[size..])
    else if t == [] then Fail(EOF)
    else Fail(UnexpectedEOF)
  }

  /** The bytes getVBI collects: up to the first one without the top bit, at most four. */
  function GetVbi(s: seq<byte>, got: nat): (r: Read<seq<byte>>)
    requires got < 4
    decreases |s|
    ensures r.Done? ==> 1 <= |r.value| <= 4 - got && r.value + r.rest == s
  {
    if s == [] then Fail(EOF)
    else if s[0] <= 127 then Done([s[0]], s[1..])
    else if got + 1 > 3 then Fail(Malformed)
    else
      var (more, t) :- GetVbi(s[1..], got + 1);
      Done([s[0]] + more, t)
  }

  /** decodeVBI with k bytes already taken: the end of the buffer reads as a zero byte, and a
      fourth byte must be the last. The result is the number the bytes from here on stand for. */
  function DecodeVbi(s: seq<byte>, k: nat): (r: Read<nat>)
    requires k < 4
    decreases |s|
    ensures r.Done? ==> |r.rest| <= |s|
  {
    if s == [] then Done(0, [])
    else if s[0] < 128 then Done(s[0], s[1..])
    else if 7 * (k + 1) >= 27 then Fail(Malformed)
    else
      var (n, t) :- DecodeVbi(s[1..], k + 1);
      Done(s[0] - 128 + 128 * n, t)
  }

  /** getVBI followed by decodeVBI, as ReadPacket and Properties.Unpack do. */
  function ReadVbi(s: seq<byte>): (r: Read<nat>)
    ensures r.Done? ==> |r.rest| < |s|
  {
    var (digits, t) :- GetVbi(s, 0);
    var (n, _) :- DecodeVbi(digits, 0);
    Done(n, t)
  }

  // ---- Round trips ----

  lemma U16RoundTrip(n: uint16, t: seq<byte>)
    ensures ReadU16(U16(n) + t) == Done(n, t)
  {
    assert (U16(n) + t)[2..] == t;
  }

  lemma U32Digits(n: uint32)
    ensures n == n / 0x100_0000 * 0x100_0000 + n / 0x1_0000 % 256 * 0x1_0000 + n / 256 % 256 * 256 + n % 256
  {
    var high, low := n / 0x1_0000, n % 0x1_0000;
    assert n / 0x100_0000 == high / 256;
    assert n / 256 == high * 256 + low / 256;
    assert n / 256 % 256 == low / 256;
  }

  lemma U32RoundTrip(n: uint32, t: seq<byte>)
    ensures ReadU32(U32(n) + t) == Done(n, t)
  {
    U32Digits(n);
    assert (U32(n) + t)[4..] == t;
  }

  /** Reading back binary data gives what the writer kept of it, and leaves what follows. */
  lemma BinRoundTrip(d: seq<byte>, t: seq<byte>)
    ensures ReadBin(Bin(d) + t) == Done(Truncated(d), t)
  {
    var k := Truncated(d);
    assert Bin(d) + t == U16(|k|) + (k + t);
    U16RoundTrip(|k|, k + t);
    assert (k + t)[..|k|] == k && (k + t)[|k|..] == t;
  }

  /** The numbers that fit in k seven-bit digits, for k up to four. */
  function Capacity(k: nat): nat
    requires k <= 4
  {
    [1, 128, 16384, 2097152, 268435456][k]
  }

  lemma {:induction false} GetVbiRoundTrip(n: nat, got: nat, t: seq<byte>)
    requires got < 4 && n < Capacity(4 - got)
    ensures |Vbi(n)| <= 4 - got
    ensures GetVbi(Vbi(n) + t, got) == Done(Vbi(n), t)
    decreases 4 - got
  {
    var s := Vbi(n) + t;
    if n < 128 {
      assert s[1..] == t;
    } else {
      GetVbiRoundTrip(n / 128, got + 1, t);
      assert s[1..] == Vbi(n / 128) + t;
    }
  }

  lemma {:induction false} DecodeVbiRoundTrip(n: nat, k: nat, t: seq<byte>)
    requires k < 4 && n < Capacity(4 - k)
    ensures DecodeVbi(Vbi(n) + t, k) == Done(n, t)
    decreases 4 - k
  {
    var s := Vbi(n) + t;
    if n < 128 {
      assert s[1..] == t;
    } else {
      DecodeVbiRoundTrip(n / 128, k + 1, t);
      assert s[1..] == Vbi(n / 128) + t;
    }
  }

  /** Every length that encodeVBI accepts takes at most four bytes and reads back as itself. */
  lemma VbiRoundTrip(n: nat, t: seq<byte>)
    requires n <= MAX_VBI
    ensures |Vbi(n)| <= 4
    ensures ReadVbi(Vbi(n) + t) == Done(n, t)
    ensures DecodeVbi(Vbi(n) + t, 0) == Done(n, t)
  {
    GetVbiRoundTrip(n, 0, t);
    DecodeVbiRoundTrip(n, 0, t);
    DecodeVbiRoundTrip(n, 0, []);
    assert Vbi(n) + [] == Vbi(n);
  }
}
