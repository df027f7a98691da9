/** The readers and writers of packets/packets.go, which consume and append to a buffer, proved against
    the formats in module Wire. */
module WireBuffers {
  import opened Basics
  import Wire

  /** A read from a buffer agrees with its format: the same value with the same bytes left, or the same
      error. What is left after an error is not looked at. */
  predicate Reads<T(==)>(r: Result<T>, left: seq<byte>, format: Read<T>) {
    match format
    case Done(v, rest) => r == Ok(v) && left == rest
    case Fail(e) => r == Err(e)
  }

  class Buffer {
    var data: seq<byte>

    constructor (data: seq<byte>)
      ensures this.data == data
    {
      this.data := data;
    }

    // ---- Writers ----

    method Write(d: seq<byte>)
      modifies this
      ensures data == old(data) + d
    {
      data := data + d;
    }

    method WriteByte(b: byte)
      modifies this
      ensures data == old(data) + [b]
    {
      data := data + [b];
    }

    method WriteUint16(u: uint16)
      modifies this
      ensures data == old(data) + Wire.U16(u)
    {
      WriteByte(u / 256);
      WriteByte(u % 256);
    }

    method WriteUint32(u: uint32)
      modifies this
      ensures data == old(data) + Wire.U32(u)
    {
      WriteByte(u / 0x100_0000);
      WriteByte(u / 0x1_0000 % 256);
      WriteByte(u / 256 % 256);
      WriteByte(u % 256);
    }

    /** writeString and writeBinary. */
    method WriteBinary(d: seq<byte>)
      modifies this
      ensures data == old(data) + Wire.Bin(d)
    {
      var kept := d;
      if |d| > 65535 {
        kept := d[..65535];
      }
      WriteUint16(|kept|);
      Write(kept);
    }

    /** encodeVBIdirect. */
    method WriteVbi(n: int) returns (ok: bool)
      modifies this
      ensures ok == Wire.EncodeVbi(n).Ok?
      ensures data == old(data) + if ok then Wire.Vbi(n) else []
    {
      var digits := EncodeVbi(n);
      if digits.Err? {
        return false;
      }
      Write(digits.value);
      return true;
    }

    // ---- Readers ----

    method ReadByte() returns (r: Result<byte>)
      modifies this
      ensures Reads(r, data, Wire.ReadByte(old(data)))
      ensures old(data) == [] ==> data == []
    {
      if data == [] {
        return Err(EOF);
      }
      r := Ok(data[0]);
      data := data[1..];
    }

    method ReadUint16() returns (r: Result<uint16>)
      modifies this
      ensures Reads(r, data, Wire.ReadU16(old(data)))
    {
      var b1 :- ReadByte();
      var b2 :- ReadByte();
      return Ok(b1 as int * 256 + b2);
    }

    method ReadUint32() returns (r: Result<uint32>)
      modifies this
      ensures Reads(r, data, Wire.ReadU32(old(data)))
    {
      var b1 :- ReadByte();
      var b2 :- ReadByte();
      var b3 :- ReadByte();
      var b4 :- ReadByte();
      return Ok(b1 as int * 0x100_0000 + b2 as int * 0x1_0000 + b3 as int * 256 + b4);
    }

    /** readString and readBinary. */
    method ReadBinary() returns (r: Result<seq<byte>>)
      modifies this
      ensures Reads(r, data, Wire.ReadBin(old(data)))
    {
      var size :- ReadUint16();
      if |data| < size {
        return Err(if data == [] then EOF else UnexpectedEOF);
      }
      r := Ok(data[..size]);
      data := data[size..];
    }

    /** getVBI. */
    method GetVbi() returns (r: Result<seq<byte>>)
      modifies this
      ensures Reads(r, data, Wire.GetVbi(old(data), 0))
    {
      var ret: seq<byte> := [];
      CollectNone(Wire.GetVbi(data, 0));
      while true
        invariant |ret| < 4
        invariant Wire.GetVbi(old(data), 0) == Collected(ret, Wire.GetVbi(data, |ret|))
        decreases |data|
      {
        ghost var left := data;
        var digit :- ReadByte();
        CollectStep(ret, left);
        ret := ret + [digit];
        if digit <= 0x7f {
          return Ok(ret);
        }
        if |ret| > 3 {
          return Err(Malformed);
        }
      }
    }

    /** decodeVBI. The digits do not overlap, so or-ing one in is adding it. */
    method DecodeVbi() returns (r: Result<nat>)
      modifies this
      ensures Reads(r, data, Wire.DecodeVbi(old(data), 0))
    {
      hide Power, Added, Wire.DecodeVbi;
      var vbi: nat, multiplier: nat := 0, 0;
      ghost var k := 0;
      AddNone(Wire.DecodeVbi(data, 0));
      while true
        invariant 0 <= k < 4 && multiplier == 7 * k
        invariant Wire.DecodeVbi(old(data), 0) == Added(vbi, k, Wire.DecodeVbi(data, k))
        decreases |data|
      {
        var digit: int := 0;
        ghost var left := data;
        var b := ReadByte();
        if b.Ok? {
          digit := b.value;
        }
        AddStep(vbi, k, left);
        vbi := vbi + digit % 128 * Power(multiplier);
        if digit < 128 {
          return Ok(vbi);
        }
        multiplier := multiplier + 7;
        if multiplier >= 27 {
          return Err(Malformed);
        }
        k := k + 1;
      }
    }

    /** getVBI followed by decodeVBI. */
    method ReadVbi() returns (r: Result<nat>)
      modifies this
      ensures Reads(r, data, Wire.ReadVbi(old(data)))
    {
      var digits :- GetVbi();
      var sub := new Buffer(digits);
      r := sub.DecodeVbi();
    }
  }

  /** encodeVBI: at most four digits, least significant first. */
  method EncodeVbi(length: int) returns (r: Result<seq<byte>>)
    ensures r == Wire.EncodeVbi(length)
  {
    if length < 0 || length > 268435455 {
      return Err(TooLong);
    }
    hide Wire.Vbi;
    var x, n := 0, length;
    var b := new byte[4];
    assert b[..0] + Wire.Vbi(n) == Wire.Vbi(n);
    while true
      invariant 0 <= x < 4 && 0 <= n < Wire.Capacity(4 - x)
      invariant b[..x] + Wire.Vbi(n) == Wire.Vbi(length)
      decreases n
    {
      ghost var before := b[..x];
      VbiStep(before, n);
      var digit := n % 128;
      if n / 128 > 0 {
        digit := digit + 128;
      }
      b[x] := digit;
      assert b[..x + 1] == before + [digit];
      x := x + 1;
      if n / 128 == 0 {
        return Ok(b[..x]);
      }
      n := n / 128;
    }
  }

  lemma VbiStep(done: seq<byte>, n: nat)
    ensures done + Wire.Vbi(n)
         == if n < 128 then done + [n] else (done + [n % 128 + 128]) + Wire.Vbi(n / 128)
  {
    if n >= 128 {
      Associate(done, [n % 128 + 128], Wire.Vbi(n / 128));
    }
  }

  /** 2 to the power of the shift, for the shifts that occur. */
  function Power(shift: nat): nat
    requires shift in {0, 7, 14, 21}
  {
    match shift
    case 0 => 1
    case 7 => 128
    case 14 => 16384
    case _ => 2097152
  }

  ghost function Collected(digits: seq<byte>, r: Read<seq<byte>>): Read<seq<byte>> {
    match r
    case Done(more, rest) => Done(digits + more, rest)
    case Fail(e) => Fail(e)
  }

  lemma CollectNone(r: Read<seq<byte>>)
    ensures Collected([], r) == r
  {
    if r.Done? {
      assert [] + r.value == r.value;
    }
  }

  lemma CollectStep(ret: seq<byte>, s: seq<byte>)
    requires |ret| < 4 && s != []
    ensures Collected(ret, Wire.GetVbi(s, |ret|))
         == if s[0] <= 127 then Done(ret + [s[0]], s[1..])
            else if |ret| + 1 > 3 then Fail(Malformed)
            else Collected(ret + [s[0]], Wire.GetVbi(s[1..], |ret| + 1))
  {
    if s[0] > 127 && |ret| < 3 && Wire.GetVbi(s[1..], |ret| + 1).Done? {
      Associate(ret, [s[0]], Wire.GetVbi(s[1..], |ret| + 1).value);
    }
  }

  ghost function Added(sum: nat, k: nat, r: Read<nat>): Read<nat>
    requires k < 4
  {
    match r
    case Done(n, rest) => Done(sum + n * Power(7 * k), rest)
    case Fail(e) => Fail(e)
  }

  lemma AddNone(r: Read<nat>)
    ensures Added(0, 0, r) == r
  {}

  lemma AddStep(sum: nat, k: nat, s: seq<byte>)
    requires k < 4
    ensures Added(sum, k, Wire.DecodeVbi(s, k))
         == if s == [] then Done(sum + 0 % 128 * Power(7 * k), [])
            else if s[0] < 128 then Done(sum + s[0] % 128 * Power(7 * k), s[1..])
            else if k == 3 then Fail(Malformed)
            else Added(sum + s[0] % 128 * Power(7 * k), k + 1, Wire.DecodeVbi(s[1..], k + 1))
  {
    hide Power;
    if s != [] && s[0] >= 128 && k < 3 && Wire.DecodeVbi(s[1..], k + 1).Done? {
      Shift(s[0] - 128, Wire.DecodeVbi(s[1..], k + 1).value, k);
    }
  }

  lemma Shift(digit: nat, n: nat, k: nat)
    requires k < 3
    ensures (digit + 128 * n) * Power(7 * k) == digit * Power(7 * k) + n * Power(7 * (k + 1))
  {
    match k {
      case 0 =>
      case 1 =>
      case _ =>
    }
  }
}
