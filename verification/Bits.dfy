/** The bits of a byte, for the flag bytes of the codec. */
module Bits {
  import opened Basics

  /** A byte as its bits, the low one first. */
  datatype Flags = Flags(b0: bool, b1: bool, b2: bool, b3: bool, b4: bool, b5: bool, b6: bool, b7: bool)

  function Bit(b: bool): byte {
    if b then 1 else 0
  }

  function HighNibble(f: Flags): (r: byte)
    ensures r < 16
  {
    Bit(f.b4) + 2 * (Bit(f.b5) + 2 * (Bit(f.b6) + 2 * Bit(f.b7)))
  }

  function ToByte(f: Flags): byte {
    Bit(f.b0) + 2 * (Bit(f.b1) + 2 * (Bit(f.b2) + 2 * (Bit(f.b3) + 2 * HighNibble(f))))
  }

  function FromByte(n: byte): Flags {
    var (n1, n2, n3, n4) := (n / 2, n / 4, n / 8, n / 16);
    Flags(n % 2 == 1, n1 % 2 == 1, n2 % 2 == 1, n3 % 2 == 1,
          n4 % 2 == 1, n4 / 2 % 2 == 1, n4 / 4 % 2 == 1, n4 / 8 == 1)
  }

  /** A two-bit number: its low and its high bit. */
  function TwoBits(low: bool, high: bool): byte {
    Bit(low) + 2 * Bit(high)
  }

  lemma ToByteHalves(f: Flags)
    ensures ToByte(f) / 16 == HighNibble(f)
    ensures ToByte(f) % 2 == Bit(f.b0)
    ensures ToByte(f) / 2 == Bit(f.b1) + 2 * (Bit(f.b2) + 2 * (Bit(f.b3) + 2 * HighNibble(f)))
    ensures ToByte(f) / 4 == Bit(f.b2) + 2 * (Bit(f.b3) + 2 * HighNibble(f))
    ensures ToByte(f) / 8 == Bit(f.b3) + 2 * HighNibble(f)
  {}

  /** The bits of a byte made from bits are those bits. */
  lemma BitsOfByte(f: Flags)
    ensures FromByte(ToByte(f)) == f && ToByte(f) / 16 == HighNibble(f)
  {
    ToByteHalves(f);
    var h := HighNibble(f);
    assert h / 2 == Bit(f.b5) + 2 * (Bit(f.b6) + 2 * Bit(f.b7));
    assert h / 4 == Bit(f.b6) + 2 * Bit(f.b7);
    assert h / 8 == Bit(f.b7);
  }

  lemma SmallByte(q: byte)
    requires q < 4
    ensures q == TwoBits(FromByte(q).b0, FromByte(q).b1)
    ensures FromByte(q) == Flags(q % 2 == 1, q >= 2, false, false, false, false, false, false)
  {}
}
