/**
 * The part of the Borsh binary format that the token-lock instruction schema
 * uses: unsigned little-endian integers of a fixed width, fixed-length byte
 * arrays, and `Option` values written as a tag byte (0 = None, 1 = Some)
 * followed by the value only when it is present. Each writer has a reader
 * that consumes exactly what the writer produced, so that a struct made of
 * these fields can be read back field by field.
 */
module Borsh {
  import opened Wrappers

  /** An octet; the values are those of `u8`. */
  newtype byte = x: int | 0 <= x < 256

  /** Why a byte sequence is not a valid encoding. */
  datatype DecodeError =
    | UnexpectedEnd
    | InvalidOptionTag(tag: byte)
    | InvalidDiscriminant(discriminant: byte)
    | TrailingBytes(count: nat)

  /** 256^width: the number of values an unsigned integer of `width` bytes can hold. */
  function Pow256(width: nat): (r: nat)
    ensures r > 0
  {
    if width == 0 then 1 else 256 * Pow256(width - 1)
  }

  /** Exclusive upper bounds of the Borsh `u32` and `u64` types. */
  const U32_LIMIT: nat := 0x1_0000_0000
  const U64_LIMIT: nat := 0x1_0000_0000_0000_0000

  lemma LimitsArePowers()
    ensures Pow256(4) == U32_LIMIT && Pow256(8) == U64_LIMIT
  {
  }

  /** The unsigned integer whose little-endian bytes are `bs`. */
  function LittleEndianValue(bs: seq<byte>): (n: nat)
    ensures n < Pow256(|bs|)
  {
    if bs == [] then 0 else bs[0] as nat + 256 * LittleEndianValue(bs[1..])
  }

  /** Splitting off the least significant byte leaves a number one byte narrower. */
  lemma DivModByte(n: nat, width: nat)
    requires 0 < width && n < Pow256(width)
    ensures n / 256 < Pow256(width - 1)
    ensures n == n % 256 + 256 * (n / 256)
  {
  }

  /** The `width` little-endian bytes of `n`, least significant byte first. */
  function LittleEndian(n: nat, width: nat): (bs: seq<byte>)
    requires n < Pow256(width)
    ensures |bs| == width
    ensures LittleEndianValue(bs) == n
  {
    if width == 0 then []
    else
      DivModByte(n, width);
      var rest := LittleEndian(n / 256, width - 1);
      assert ([(n % 256) as byte] + rest)[1..] == rest;
      [(n % 256) as byte] + rest
  }

  /** Reading a byte sequence as a number and writing it back at the same width gives the same bytes. */
  lemma {:induction false} LittleEndianOfValue(bs: seq<byte>)
    ensures LittleEndian(LittleEndianValue(bs), |bs|) == bs
  {
    if bs != [] {
      var n := LittleEndianValue(bs);
      LittleEndianOfValue(bs[1..]);
      assert n / 256 == LittleEndianValue(bs[1..]);
      assert (n % 256) as byte == bs[0];
      assert bs == [bs[0]] + bs[1..];
    }
  }

  /** Borsh `u64`: eight little-endian bytes. */
  function U64(n: nat): (bs: seq<byte>)
    requires n < U64_LIMIT
    ensures |bs| == 8 && LittleEndianValue(bs) == n
  {
    LimitsArePowers();
    LittleEndian(n, 8)
  }

  /** Borsh `u32`: four little-endian bytes. */
  function U32(n: nat): (bs: seq<byte>)
    requires n < U32_LIMIT
    ensures |bs| == 4 && LittleEndianValue(bs) == n
  {
    LimitsArePowers();
    LittleEndian(n, 4)
  }

  /**
   * Borsh `Option<T>` given the encoding of the value when there is one:
   * the tag byte 0 alone for None, the tag byte 1 and then the value for Some.
   */
  function OptionBytes(value: Option<seq<byte>>): (bs: seq<byte>)
    ensures |bs| >= 1 && bs[0] == (if value.Some? then 1 else 0)
  {
    match value
    case None => [0]
    case Some(v) => [1] + v
  }

  /** Reads one `u8` from the front of `bs`, returning it and what follows. */
  function ReadU8(bs: seq<byte>): (r: Result<(byte, seq<byte>), DecodeError>)
    ensures r.Ok? <==> bs != []
    ensures r.Ok? ==> [r.value.0] + r.value.1 == bs
    ensures r.Err? ==> r.error == UnexpectedEnd
  {
    if bs == [] then Err(UnexpectedEnd) else Ok((bs[0], bs[1..]))
  }

  /** Reads a fixed-width field of `width` bytes from the front of `bs`. */
  function ReadFixed(bs: seq<byte>, width: nat): (r: Result<(seq<byte>, seq<byte>), DecodeError>)
    ensures r.Ok? <==> width <= |bs|
    ensures r.Ok? ==> |r.value.0| == width && r.value.0 + r.value.1 == bs
    ensures r.Err? ==> r.error == UnexpectedEnd
  {
    if |bs| < width then Err(UnexpectedEnd) else Ok((bs[..width], bs[width..]))
  }

  /**
   * Reads a Borsh `Option` whose value is `width` bytes wide: the tag must be
   * 0 or 1, and a 1 must be followed by at least `width` bytes. What it
   * consumes is exactly the encoding of what it returns.
   */
  function ReadOption(bs: seq<byte>, width: nat): (r: Result<(Option<seq<byte>>, seq<byte>), DecodeError>)
    ensures r.Ok? ==> (r.value.0.Some? ==> |r.value.0.value| == width)
    ensures r.Ok? ==> OptionBytes(r.value.0) + r.value.1 == bs
    ensures bs != [] && bs[0] > 1 ==> r == Err(InvalidOptionTag(bs[0]))
    ensures bs == [] || (bs[0] == 1 && |bs| < 1 + width) ==> r == Err(UnexpectedEnd)
  {
    var tag :- ReadU8(bs);
    if tag.0 == 0 then Ok((None, tag.1))
    else if tag.0 == 1 then
      var v :- ReadFixed(tag.1, width);
      Ok((Some(v.0), v.1))
    else Err(InvalidOptionTag(tag.0))
  }

  /** Three pieces read one after the other make up the whole input. */
  lemma JoinThree(a: seq<byte>, b: seq<byte>, c: seq<byte>, bc: seq<byte>, abc: seq<byte>)
    requires b + c == bc && a + bc == abc
    ensures a + b + c == abc
  {
  }

  /** The encoding of an option is read back as that option, whatever follows it. */
  lemma ReadOptionBytes(value: Option<seq<byte>>, width: nat, rest: seq<byte>)
    requires value.Some? ==> |value.value| == width
    ensures ReadOption(OptionBytes(value) + rest, width) == Ok((value, rest))
  {
    var bs := OptionBytes(value) + rest;
    assert bs[1..] == OptionBytes(value)[1..] + rest;
    if value.Some? {
      assert bs[1..][..width] == value.value;
      assert bs[1..][width..] == rest;
    }
  }
}
