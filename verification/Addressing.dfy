/** HDLC addresses (src/hdlc/hdlc_address.cpp). */
module Addressing {
  import opened Types
  import opened Bits

  predicate IsSupportedEncodedSize(size: nat) {
    size == 1 || size == 2 || size == 4
  }

  /** The values below 2 to the power of 7 times k: k groups of seven bits. */
  function Pow128(k: nat): (r: nat)
    ensures r >= 1
  {
    if k == 0 then 1 else 0x80 * Pow128(k - 1)
  }

  lemma Pow128Values()
    ensures Pow128(1) == 0x80 && Pow128(2) == 0x4000 && Pow128(3) == 0x20_0000 && Pow128(4) == 0x1000_0000
  {
  }

  function MaximumRawValue(size: nat): nat {
    Pow128(size) - 1
  }

  datatype AddressValue = Address(raw: nat, size: nat) {
    predicate Valid() {
      IsSupportedEncodedSize(size) && raw <= MaximumRawValue(size)
    }
  }

  // The fields of the source class are private, and every way to set them keeps them valid.
  type HdlcAddress = a: AddressValue | a.Valid() witness Address(0, 1)

  /** The value bits of an address byte. */
  function Seven(b: Byte): (r: nat)
    ensures r < 0x80
  {
    b / 2
  }

  /** The value above its lowest k groups of seven bits. */
  function Above(raw: nat, k: nat): nat
    decreases k
  {
    if k == 0 then raw else Above(raw / 0x80, k - 1)
  }

  datatype Parsed = Parsed(address: HdlcAddress, consumed: nat)

  /** Group number index of the address as its byte on the wire: seven value bits above an
      extension bit, which is set in the last byte only. */
  function Group(a: HdlcAddress, index: nat): Byte
    requires index < a.size
  {
    2 * (Above(a.raw, a.size - index - 1) % 0x80) + (if index + 1 == a.size then 1 else 0)
  }

  function EncodeAddress(a: HdlcAddress): (bytes: seq<Byte>)
    ensures |bytes| == a.size
  {
    seq(a.size, index requires 0 <= index < a.size => Group(a, index))
  }

  /** The address field at the start of data: it ends at the first odd byte. */
  function DecodeAddress(data: seq<Byte>): Result<Parsed> {
    Pow128Values();
    if |data| > 0 && data[0] % 2 == 1 then
      Success(Parsed(Address(Seven(data[0]), 1), 1))
    else if |data| > 1 && data[1] % 2 == 1 then
      Success(Parsed(Address(Seven(data[0]) * 0x80 + Seven(data[1]), 2), 2))
    else if |data| > 2 && data[2] % 2 == 1 then
      Failure(UnsupportedAddress)
    else if |data| > 3 && data[3] % 2 == 1 then
      Success(Parsed(Address(((Seven(data[0]) * 0x80 + Seven(data[1])) * 0x80 + Seven(data[2])) * 0x80 + Seven(data[3]), 4), 4))
    else if |data| < 4 then
      Failure(NeedMoreData)
    else
      Failure(InvalidAddress)
  }

  function FromRaw(raw: nat, size: nat): Result<HdlcAddress> {
    if !IsSupportedEncodedSize(size) then Failure(UnsupportedAddress)
    else if raw > MaximumRawValue(size) then Failure(InvalidAddress)
    else Success(Address(raw, size))
  }

  /** A server address from its logical and physical parts, in the shortest form that holds both. */
  function MakeServerAddress(logical: nat, physical: nat): Result<HdlcAddress> {
    if logical > 0x3fff || physical > 0x3fff then Failure(InvalidAddress)
    else if physical == 0 && logical <= 0x7f then FromRaw(logical, 1)
    else if logical <= 0x7f && physical <= 0x7f then FromRaw(logical * 0x80 + physical, 2)
    else FromRaw(logical * 0x4000 + physical, 4)
  }

  method FromBytes(data: seq<Byte>) returns (r: Result<Parsed>)
    ensures r == DecodeAddress(data)
  {
    Pow128Values();
    var rawValue: nat := 0;
    var index := 0;
    while index < |data| && index < 4
      invariant 0 <= index <= |data| && index <= 4
      invariant forall k :: 0 <= k < index ==> data[k] % 2 == 0
      invariant index == 0 ==> rawValue == 0
      invariant index == 1 ==> rawValue == Seven(data[0])
      invariant index == 2 ==> rawValue == Seven(data[0]) * 0x80 + Seven(data[1])
      invariant index == 3 ==> rawValue == (Seven(data[0]) * 0x80 + Seven(data[1])) * 0x80 + Seven(data[2])
    {
      rawValue := rawValue * 0x80 + Seven(data[index]);
      var consumed := index + 1;
      if data[index] % 2 == 1 {
        if !IsSupportedEncodedSize(consumed) {
          return Failure(UnsupportedAddress);
        }
        return Success(Parsed(Address(rawValue, consumed), consumed));
      }
      index := index + 1;
    }
    if |data| < 4 {
      return Failure(NeedMoreData);
    }
    return Failure(InvalidAddress);
  }

  /** Writes the address at offset and leaves the rest of the buffer as it was. */
  method Encode(a: HdlcAddress, output: array<Byte>, offset: nat) returns (status: Status, written: nat)
    requires offset <= output.Length
    modifies output
    ensures status == if output.Length - offset < a.size then OutputBufferTooSmall else Ok
    ensures status != Ok ==> written == 0 && output[..] == old(output[..])
    ensures status == Ok ==> written == a.size
    ensures status == Ok ==> output[..offset + a.size] == old(output[..offset]) + EncodeAddress(a)
    ensures forall k :: offset + a.size <= k < output.Length ==> output[k] == old(output[k])
  {
    if output.Length - offset < a.size {
      return OutputBufferTooSmall, 0;
    }
    for index := 0 to a.size
      invariant forall k :: 0 <= k < index ==> output[offset + k] == Group(a, k)
      invariant forall k :: 0 <= k < output.Length && !(offset <= k < offset + index) ==> output[k] == old(output[k])
    {
      output[offset + index] := Group(a, index);
    }
    return Ok, a.size;
  }

  // ----- The field is self-delimiting, and decoding inverts encoding both ways

  lemma OneGroup(a: HdlcAddress)
    requires a.size == 1
    ensures EncodeAddress(a) == [2 * a.raw + 1]
  {
    Pow128Values();
  }

  lemma TwoGroups(a: HdlcAddress)
    requires a.size == 2
    ensures a.raw / 0x80 < 0x80
    ensures EncodeAddress(a) == [2 * (a.raw / 0x80), 2 * (a.raw % 0x80) + 1]
  {
    Pow128Values();
    assert Above(a.raw, 1) == a.raw / 0x80;
  }

  lemma FourGroups(a: HdlcAddress)
    requires a.size == 4
    ensures var x, y, z := a.raw / 0x80 / 0x80 / 0x80, a.raw / 0x80 / 0x80, a.raw / 0x80;
      x < 0x80 && EncodeAddress(a) == [2 * x, 2 * (y % 0x80), 2 * (z % 0x80), 2 * (a.raw % 0x80) + 1]
  {
    Pow128Values();
    var x, y, z := a.raw / 0x80 / 0x80 / 0x80, a.raw / 0x80 / 0x80, a.raw / 0x80;
    assert Above(a.raw, 1) == z && Above(a.raw, 2) == y && Above(a.raw, 3) == x by {
      assert Above(z, 1) == y && Above(y, 1) == x && Above(z, 2) == x;
    }
    assert z < 0x20_0000 && y < 0x4000 && x < 0x80;
  }

  lemma AddressRoundTrip(a: HdlcAddress, rest: seq<Byte>)
    ensures DecodeAddress(EncodeAddress(a) + rest) == Success(Parsed(a, a.size))
  {
    if a.size == 1 {
      OneGroup(a);
    } else if a.size == 2 {
      TwoGroups(a);
    } else {
      FourGroupRoundTrip(a, rest);
    }
  }

  lemma FourGroupRoundTrip(a: HdlcAddress, rest: seq<Byte>)
    requires a.size == 4
    ensures DecodeAddress(EncodeAddress(a) + rest) == Success(Parsed(a, a.size))
  {
    FourGroups(a);
  }

  lemma SplitGroup(high: nat, low: nat, raw: nat)
    requires low < 0x80 && raw == high * 0x80 + low
    ensures raw / 0x80 == high && raw % 0x80 == low
  {
  }

  /** Whatever is accepted as an address is its one encoding, and nothing shorter or longer is. */
  lemma AddressCanonical(data: seq<Byte>)
    requires DecodeAddress(data).Success?
    ensures var p := DecodeAddress(data).value;
      p.consumed == p.address.size <= |data| && EncodeAddress(p.address) == data[..p.consumed]
  {
    var a := DecodeAddress(data).value.address;
    if a.size == 1 {
      OneGroup(a);
    } else if a.size == 2 {
      TwoGroups(a);
      SplitGroup(Seven(data[0]), Seven(data[1]), a.raw);
    } else {
      var x, y := Seven(data[0]), Seven(data[0]) * 0x80 + Seven(data[1]);
      var z := y * 0x80 + Seven(data[2]);
      SplitGroup(x, Seven(data[1]), y);
      SplitGroup(y, Seven(data[2]), z);
      SplitGroup(z, Seven(data[3]), a.raw);
      FourGroups(a);
    }
  }

  /** No address field is the beginning of another one. */
  lemma AddressPrefixFree(a: HdlcAddress, b: HdlcAddress)
    requires EncodeAddress(a) <= EncodeAddress(b)
    ensures a == b
  {
    AddressRoundTrip(a, EncodeAddress(b)[a.size..]);
    AddressRoundTrip(b, []);
    assert EncodeAddress(a) + EncodeAddress(b)[a.size..] == EncodeAddress(b) + [];
  }

  /** Distinct device pairs get distinct addresses, and a pair is refused exactly when a part
      needs more than 14 bits. */
  lemma ServerAddressInjective(logical: nat, physical: nat, logical': nat, physical': nat)
    ensures MakeServerAddress(logical, physical).Success? <==> logical <= 0x3fff && physical <= 0x3fff
    ensures MakeServerAddress(logical, physical).Success?
      && MakeServerAddress(logical, physical) == MakeServerAddress(logical', physical')
      ==> logical == logical' && physical == physical'
  {
    Pow128Values();
  }

  // ----- What the bytes say

  /** The value that address bytes spell, seven bits each, highest first. */
  function Spelled(bytes: seq<Byte>): nat {
    if bytes == [] then 0 else Spelled(bytes[..|bytes| - 1]) * 0x80 + Seven(bytes[|bytes| - 1])
  }

  lemma SpelledTwo(bytes: seq<Byte>)
    requires |bytes| == 2
    ensures Spelled(bytes) == Seven(bytes[0]) * 0x80 + Seven(bytes[1])
  {
    assert bytes[..1][..0] == [];
    assert Spelled(bytes[..1]) == Seven(bytes[0]);
  }

  lemma SpelledFour(bytes: seq<Byte>)
    requires |bytes| == 4
    ensures Spelled(bytes) == Spelled(bytes[..2]) * 0x4000 + Spelled(bytes[2..])
  {
    SpelledTwo(bytes[..2]);
    SpelledTwo(bytes[2..]);
    assert bytes[..3][..2] == bytes[..2];
    assert Spelled(bytes[..3]) == Spelled(bytes[..2]) * 0x80 + Seven(bytes[2]);
  }

  /** An address field spells its value, highest bits first, and only its last byte is odd. */
  lemma AddressSpelled(a: HdlcAddress)
    ensures Spelled(EncodeAddress(a)) == a.raw
    ensures forall i :: 0 <= i < a.size ==> (EncodeAddress(a)[i] % 2 == 1 <==> i == a.size - 1)
  {
    ExtensionBits(a);
    var bytes := EncodeAddress(a);
    if a.size == 1 {
      OneGroup(a);
      assert bytes[..0] == [];
    } else if a.size == 2 {
      TwoSpelled(a);
    } else {
      FourSpelled(a);
    }
  }

  lemma ExtensionBits(a: HdlcAddress)
    ensures forall i :: 0 <= i < a.size ==> (EncodeAddress(a)[i] % 2 == 1 <==> i == a.size - 1)
  {
    forall i | 0 <= i < a.size ensures EncodeAddress(a)[i] % 2 == 1 <==> i == a.size - 1 {
      assert EncodeAddress(a)[i] == Group(a, i);
    }
  }

  lemma TwoSpelled(a: HdlcAddress)
    requires a.size == 2
    ensures Spelled(EncodeAddress(a)) == a.raw
  {
    TwoGroups(a);
    SpelledTwo(EncodeAddress(a));
  }

  lemma FourSpelled(a: HdlcAddress)
    requires a.size == 4
    ensures Spelled(EncodeAddress(a)) == a.raw
  {
    var bytes := EncodeAddress(a);
    FourGroups(a);
    SpelledFour(bytes);
    SpelledTwo(bytes[..2]);
    SpelledTwo(bytes[2..]);
  }

  /** Where the first odd byte stands decides what is wrong with an address. */
  lemma AddressErrors(data: seq<Byte>)
    ensures DecodeAddress(data) == Failure(UnsupportedAddress) <==>
      |data| >= 3 && data[0] % 2 == 0 && data[1] % 2 == 0 && data[2] % 2 == 1
    ensures DecodeAddress(data) == Failure(InvalidAddress) <==>
      |data| >= 4 && forall i :: 0 <= i < 4 ==> data[i] % 2 == 0
    ensures DecodeAddress(data) == Failure(NeedMoreData) <==>
      |data| < 4 && forall i :: 0 <= i < |data| ==> data[i] % 2 == 0
    ensures DecodeAddress(data).Failure? ==> DecodeAddress(data).status in {UnsupportedAddress, InvalidAddress, NeedMoreData}
  {
    if |data| > 0 && data[0] % 2 == 1 {
    } else if |data| > 1 && data[1] % 2 == 1 {
    } else if |data| > 2 && data[2] % 2 == 1 {
    } else if |data| > 3 && data[3] % 2 == 1 {
    }
  }

  /** An address from a number: of a supported size, and with room for the number. */
  lemma FromRawExact(raw: nat, size: nat)
    ensures FromRaw(raw, size) ==
      if size != 1 && size != 2 && size != 4 then Failure(UnsupportedAddress)
      else if raw >= (if size == 1 then 0x80 else if size == 2 then 0x4000 else 0x1000_0000) then Failure(InvalidAddress)
      else Success(Address(raw, size))
  {
    Pow128Values();
  }

  /** A server address spells the logical device before the physical one, in the shortest field that
      holds both; it is refused as invalid if a part has more than 14 bits. */
  lemma ServerAddressSpelled(logical: nat, physical: nat)
    ensures match MakeServerAddress(logical, physical)
      case Failure(status) => status == InvalidAddress && (logical >= 0x4000 || physical >= 0x4000)
      case Success(a) =>
        var bytes := EncodeAddress(a);
        if physical == 0 && logical < 0x80 then a.size == 1 && Spelled(bytes) == logical
        else if logical < 0x80 && physical < 0x80 then
          a.size == 2 && Spelled(bytes[..1]) == logical && Spelled(bytes[1..]) == physical
        else a.size == 4 && Spelled(bytes[..2]) == logical && Spelled(bytes[2..]) == physical
  {
    Pow128Values();
    if MakeServerAddress(logical, physical).Success? {
      var a := MakeServerAddress(logical, physical).value;
      var bytes := EncodeAddress(a);
      AddressSpelled(a);
      if a.size == 2 {
        SpelledTwo(bytes);
        assert bytes[..1][..0] == [] && bytes[1..][..0] == [];
      } else if a.size == 4 {
        SpelledFour(bytes);
        SpelledTwo(bytes[..2]);
        SpelledTwo(bytes[2..]);
      }
    }
  }
}
