/**
 * The client-side instruction encoder of the token-lock program: the
 * instruction kinds and their discriminants, the record that is serialised
 * with the Borsh schema
 *   instruction: u8, amount: Option<u64>, newDuration: Option<u32>,
 *   target: Option<[u8; 32]>
 * and the four builders that wrap the serialised record with the program id
 * and the ordered list of accounts the on-chain program reads by position.
 */
module TokenLockProgram {
  import opened Wrappers
  import opened Borsh

  /** A Solana public key, as its 32 raw bytes. */
  type PublicKey = s: seq<byte> | |s| == 32 witness [
    0, 0, 0, 0, 0, 0, 0, 0, 0, 0, 0, 0, 0, 0, 0, 0,
    0, 0, 0, 0, 0, 0, 0, 0, 0, 0, 0, 0, 0, 0, 0, 0]

  /** The token-lock program's id, the base58 key GFGyUDBPeKyhveN6NMb2LUF3L4x88dyr3HtWoJ18FiED. */
  const PROGRAM_ID: PublicKey := [
    0xe2, 0x87, 0x7f, 0x23, 0x89, 0xc7, 0x75, 0x97, 0x77, 0x0e, 0xea, 0xd8, 0x5a, 0xa9, 0x82, 0x69,
    0x1d, 0x18, 0x80, 0x3f, 0xf2, 0x64, 0x82, 0xa7, 0x9d, 0x31, 0xbe, 0x67, 0x05, 0x01, 0x5f, 0xa2]

  /** The system program's id, the base58 key 11111111111111111111111111111111. */
  const SYSTEM_PROGRAM_ID: PublicKey := [
    0, 0, 0, 0, 0, 0, 0, 0, 0, 0, 0, 0, 0, 0, 0, 0,
    0, 0, 0, 0, 0, 0, 0, 0, 0, 0, 0, 0, 0, 0, 0, 0]

  /** The operations the program understands, in wire order. */
  datatype InstructionType = LockTokens | UnlockTokens | ModifyLockDuration | ForceUnlock

  /** The kind named by a discriminant byte, if any. */
  function InstructionTypeOf(b: byte): (r: Option<InstructionType>)
    ensures r.Some? <==> b < 4
  {
    if b == 0 then Some(LockTokens)
    else if b == 1 then Some(UnlockTokens)
    else if b == 2 then Some(ModifyLockDuration)
    else if b == 3 then Some(ForceUnlock)
    else None
  }

  /** The `u8` discriminant of a kind: its position in the enumeration. */
  function Discriminant(t: InstructionType): (b: byte)
    ensures b < 4
    ensures InstructionTypeOf(b) == Some(t)
  {
    match t
    case LockTokens => 0
    case UnlockTokens => 1
    case ModifyLockDuration => 2
    case ForceUnlock => 3
  }

  /**
   * The serialised record. `amount` holds the BigInt the constructor made,
   * `newDuration` the number it was given; neither has been checked against
   * its Borsh width yet.
   */
  datatype Instruction = Instruction(
    instruction: InstructionType,
    amount: Option<int>,
    newDuration: Option<int>,
    target: Option<PublicKey>)

  /** The constructor's argument: `amount` is a JavaScript number, so it may have a fraction. */
  datatype InstructionProps = InstructionProps(
    instruction: InstructionType,
    amount: Option<real>,
    newDuration: Option<int>,
    target: Option<PublicKey>)

  /** Why no instruction data could be produced. */
  datatype EncodeError =
    | AmountNotInteger(number: real)
    | AmountOutOfRange(amount: int)
    | DurationOutOfRange(newDuration: int)

  predicate IsInteger(x: real) {
    x.Floor as real == x
  }

  /** The record's fields fit their Borsh types `u64` and `u32`. */
  predicate FitsSchema(ix: Instruction) {
    && (ix.amount.Some? ==> 0 <= ix.amount.value < U64_LIMIT)
    && (ix.newDuration.Some? ==> 0 <= ix.newDuration.value < U32_LIMIT)
  }

  /**
   * `new Instruction(props)`: copies the kind, the duration and the target,
   * and turns a given amount into a BigInt, which fails for a number with a
   * fraction.
   */
  function NewInstruction(props: InstructionProps): (r: Result<Instruction, EncodeError>)
    ensures r.Ok? <==> (props.amount.Some? ==> IsInteger(props.amount.value))
    ensures r.Err? ==> r.error == AmountNotInteger(props.amount.value)
    ensures r.Ok? ==>
      && r.value.instruction == props.instruction
      && r.value.amount.Some? == props.amount.Some?
      && (r.value.amount.Some? ==> r.value.amount.value as real == props.amount.value)
      && r.value.newDuration == props.newDuration
      && r.value.target == props.target
  {
    match props.amount
    case None => Ok(Instruction(props.instruction, None, props.newDuration, props.target))
    case Some(a) =>
      if IsInteger(a) then Ok(Instruction(props.instruction, Some(a.Floor), props.newDuration, props.target))
      else Err(AmountNotInteger(a))
  }

  /** The number of bytes the schema gives a record: one per tag, plus the present values. */
  function PayloadLength(ix: Instruction): nat {
    4 + (if ix.amount.Some? then 8 else 0)
      + (if ix.newDuration.Some? then 4 else 0)
      + (if ix.target.Some? then 32 else 0)
  }

  /** The encoded values of the three optional fields, before their tags are added. */
  datatype Fields = Fields(amount: Option<seq<byte>>, newDuration: Option<seq<byte>>, target: Option<seq<byte>>)

  /** Each present value has its field's width: 8 bytes for `u64`, 4 for `u32`, 32 for `[u8; 32]`. */
  predicate FieldWidths(f: Fields) {
    && (f.amount.Some? ==> |f.amount.value| == 8)
    && (f.newDuration.Some? ==> |f.newDuration.value| == 4)
    && (f.target.Some? ==> |f.target.value| == 32)
  }

  /** The three fields as Borsh options, in schema order. */
  function FieldsBytes(f: Fields): seq<byte> {
    OptionBytes(f.amount) + OptionBytes(f.newDuration) + OptionBytes(f.target)
  }

  /** The values of a record that fits the schema, written as `u64`, `u32` and `[u8; 32]`. */
  function EncodeFields(ix: Instruction): (f: Fields)
    requires FitsSchema(ix)
    ensures FieldWidths(f)
    ensures f.amount.Some? == ix.amount.Some? && f.newDuration.Some? == ix.newDuration.Some?
    ensures f.target.Some? == ix.target.Some?
  {
    Fields(
      if ix.amount.Some? then Some(U64(ix.amount.value)) else None,
      if ix.newDuration.Some? then Some(U32(ix.newDuration.value)) else None,
      if ix.target.Some? then Some(ix.target.value) else None)
  }

  /** The record of kind `kind` whose fields have the encoded values `f`. */
  function DecodeFields(kind: InstructionType, f: Fields): (ix: Instruction)
    requires FieldWidths(f)
    ensures FitsSchema(ix) && ix.instruction == kind
    ensures EncodeFields(ix) == f
  {
    LimitsArePowers();
    assert f.amount.Some? ==> LittleEndian(LittleEndianValue(f.amount.value), 8) == f.amount.value by {
      if f.amount.Some? { LittleEndianOfValue(f.amount.value); }
    }
    assert f.newDuration.Some? ==> LittleEndian(LittleEndianValue(f.newDuration.value), 4) == f.newDuration.value by {
      if f.newDuration.Some? { LittleEndianOfValue(f.newDuration.value); }
    }
    Instruction(
      kind,
      if f.amount.Some? then Some(LittleEndianValue(f.amount.value)) else None,
      if f.newDuration.Some? then Some(LittleEndianValue(f.newDuration.value)) else None,
      if f.target.Some? then Some(f.target.value) else None)
  }

  /** Decoding the encoded fields of a record gives the record back. */
  lemma DecodeEncodeFields(ix: Instruction)
    requires FitsSchema(ix)
    ensures DecodeFields(ix.instruction, EncodeFields(ix)) == ix
  {
  }

  /**
   * `serializeInstruction`: the discriminant, then amount, newDuration and
   * target as Borsh options. The source does not check ranges itself; this
   * model rejects a value its declared type `u64` or `u32` cannot hold, and
   * does so before any byte is returned. The amount comes first in the
   * schema, so it is the one reported when both are out of range.
   */
  function SerializeInstruction(ix: Instruction): (r: Result<seq<byte>, EncodeError>)
    ensures r.Ok? <==> FitsSchema(ix)
    ensures r.Err? && ix.amount.Some? && !(0 <= ix.amount.value < U64_LIMIT) ==>
      r.error == AmountOutOfRange(ix.amount.value)
    ensures r.Err? && !(ix.amount.Some? && !(0 <= ix.amount.value < U64_LIMIT)) ==>
      r.error == DurationOutOfRange(ix.newDuration.value)
    ensures r.Ok? ==> |r.value| == PayloadLength(ix) && r.value[0] == Discriminant(ix.instruction)
  {
    if ix.amount.Some? && !(0 <= ix.amount.value < U64_LIMIT) then
      Err(AmountOutOfRange(ix.amount.value))
    else if ix.newDuration.Some? && !(0 <= ix.newDuration.value < U32_LIMIT) then
      Err(DurationOutOfRange(ix.newDuration.value))
    else
      Ok([Discriminant(ix.instruction)] + FieldsBytes(EncodeFields(ix)))
  }

  /** Reads the three optional fields, which must use up `bs` exactly. */
  function ReadFields(bs: seq<byte>): (r: Result<Fields, DecodeError>)
    ensures r.Ok? ==> FieldWidths(r.value) && FieldsBytes(r.value) == bs
  {
    match ReadOption(bs, 8)
    case Err(e) => Err(e)
    case Ok((amount, afterAmount)) =>
      match ReadOption(afterAmount, 4)
      case Err(e) => Err(e)
      case Ok((newDuration, afterDuration)) =>
        match ReadOption(afterDuration, 32)
        case Err(e) => Err(e)
        case Ok((target, rest)) =>
          if rest != [] then Err(TrailingBytes(|rest|))
          else
            assert FieldsBytes(Fields(amount, newDuration, target)) == bs by {
              JoinThree(OptionBytes(amount), OptionBytes(newDuration), OptionBytes(target), afterAmount, bs);
            }
            Ok(Fields(amount, newDuration, target))
  }

  /** The tagged fields are read back as the same fields: the layout is prefix-free. */
  lemma ReadFieldsBytes(f: Fields)
    requires FieldWidths(f)
    ensures ReadFields(FieldsBytes(f)) == Ok(f)
  {
    var tb := OptionBytes(f.target);
    var nb := OptionBytes(f.newDuration) + tb;
    assert FieldsBytes(f) == OptionBytes(f.amount) + nb;
    ReadOptionBytes(f.amount, 8, nb);
    ReadOptionBytes(f.newDuration, 4, tb);
    assert tb == tb + [];
    ReadOptionBytes(f.target, 32, []);
  }

  /**
   * Borsh deserialisation under the same schema, with the checks a Borsh
   * reader makes: a discriminant naming one of the four kinds, option tags 0
   * or 1, enough bytes for every present value, and no bytes left over.
   */
  function DeserializeInstruction(data: seq<byte>): (r: Result<Instruction, DecodeError>)
    ensures r.Ok? ==> FitsSchema(r.value)
    ensures data == [] ==> r == Err(UnexpectedEnd)
    ensures data != [] && data[0] >= 4 ==> r == Err(InvalidDiscriminant(data[0]))
    ensures r.Ok? ==> data[0] == Discriminant(r.value.instruction)
  {
    var d :- ReadU8(data);
    var kind := InstructionTypeOf(d.0);
    if kind.None? then Err(InvalidDiscriminant(d.0))
    else
      var f :- ReadFields(d.1);
      Ok(DecodeFields(kind.value, f))
  }

  /** Round trip: every record that fits the schema is read back from its bytes unchanged. */
  lemma SerializeThenDeserialize(ix: Instruction)
    requires FitsSchema(ix)
    ensures DeserializeInstruction(SerializeInstruction(ix).value) == Ok(ix)
  {
    var f := EncodeFields(ix);
    var data := SerializeInstruction(ix).value;
    assert ReadU8(data) == Ok((Discriminant(ix.instruction), FieldsBytes(f)));
    ReadFieldsBytes(f);
    DecodeEncodeFields(ix);
  }

  /**
   * Canonical form: bytes the reader accepts are exactly the serialisation
   * of what it read, so no two byte sequences decode to the same record.
   */
  lemma DeserializeThenSerialize(data: seq<byte>)
    requires DeserializeInstruction(data).Ok?
    ensures SerializeInstruction(DeserializeInstruction(data).value) == Ok(data)
  {
  }

  /** Serialisation is injective: different records that fit the schema have different bytes. */
  lemma SerializeInjective(ix1: Instruction, ix2: Instruction)
    requires FitsSchema(ix1) && FitsSchema(ix2)
    requires SerializeInstruction(ix1) == SerializeInstruction(ix2)
    ensures ix1 == ix2
  {
    SerializeThenDeserialize(ix1);
    SerializeThenDeserialize(ix2);
  }

  /** An account the instruction touches, with the permissions the program expects of it. */
  datatype AccountMeta = AccountMeta(pubkey: PublicKey, isSigner: bool, isWritable: bool)

  /** What a builder returns: accounts in the order the program reads them, the program id and the data. */
  datatype TransactionInstruction = TransactionInstruction(
    keys: seq<AccountMeta>,
    programId: PublicKey,
    data: seq<byte>)

  /** `serializeInstruction(new Instruction(props))`, the data every builder computes. */
  function InstructionData(props: InstructionProps): (r: Result<seq<byte>, EncodeError>)
    ensures r.Ok? <==> NewInstruction(props).Ok? && FitsSchema(NewInstruction(props).value)
    ensures r.Ok? ==> DeserializeInstruction(r.value) == Ok(NewInstruction(props).value)
  {
    var ix :- NewInstruction(props);
    var data :- SerializeInstruction(ix);
    SerializeThenDeserialize(ix);
    Ok(data)
  }

  /** The accounts of a lock or an unlock: the user signs and pays, then the system program. */
  function UserAccounts(userPubkey: PublicKey): seq<AccountMeta> {
    [AccountMeta(userPubkey, true, true), AccountMeta(SYSTEM_PROGRAM_ID, false, false)]
  }

  /** The bytes of a record with only the amount set: `[0, 1, le64(amount), 0, 0]`. */
  lemma LockData(amount: nat)
    requires amount < U64_LIMIT
    ensures SerializeInstruction(Instruction(LockTokens, Some(amount), None, None)) == Ok([0, 1] + U64(amount) + [0, 0])
  {
    var f := EncodeFields(Instruction(LockTokens, Some(amount), None, None));
    assert f == Fields(Some(U64(amount)), None, None);
    assert FieldsBytes(f) == [1] + U64(amount) + [0] + [0];
    assert [Discriminant(LockTokens)] + FieldsBytes(f) == [0, 1] + U64(amount) + [0, 0];
  }

  /**
   * `lockTokensInstruction(amount, userPubkey)`: only the amount is set. The
   * amount must be a whole number (`BigInt` throws otherwise), and in this
   * model it must also fit the schema's `u64`.
   */
  function LockTokensInstruction(amount: real, userPubkey: PublicKey): (r: Result<TransactionInstruction, EncodeError>)
    ensures r.Ok? <==> IsInteger(amount) && 0.0 <= amount < U64_LIMIT as real
    ensures !IsInteger(amount) ==> r == Err(AmountNotInteger(amount))
    ensures IsInteger(amount) && r.Err? ==> r == Err(AmountOutOfRange(amount.Floor))
    ensures r.Ok? ==> r.value.programId == PROGRAM_ID
    ensures r.Ok? ==> r.value.keys == [AccountMeta(userPubkey, true, true), AccountMeta(SYSTEM_PROGRAM_ID, false, false)]
    ensures r.Ok? ==> DeserializeInstruction(r.value.data) == Ok(Instruction(LockTokens, Some(amount.Floor), None, None))
    ensures r.Ok? ==>
      && |r.value.data| == 12
      && r.value.data[0] == 0 && r.value.data[1] == 1
      && LittleEndianValue(r.value.data[2..10]) == amount.Floor
      && r.value.data[10] == 0 && r.value.data[11] == 0
  {
    var data :- InstructionData(InstructionProps(LockTokens, Some(amount), None, None));
    assert data[2..10] == U64(amount.Floor) by {
      assert NewInstruction(InstructionProps(LockTokens, Some(amount), None, None))
        == Ok(Instruction(LockTokens, Some(amount.Floor), None, None));
      LockData(amount.Floor);
      assert data == [0, 1] + U64(amount.Floor) + [0, 0];
    }
    Ok(TransactionInstruction(UserAccounts(userPubkey), PROGRAM_ID, data))
  }

  /** `unlockTokensInstruction(userPubkey)`: no field is set, so in this model it cannot fail. */
  function UnlockTokensInstruction(userPubkey: PublicKey): (r: TransactionInstruction)
    ensures r.programId == PROGRAM_ID
    ensures r.keys == [AccountMeta(userPubkey, true, true), AccountMeta(SYSTEM_PROGRAM_ID, false, false)]
    ensures DeserializeInstruction(r.data) == Ok(Instruction(UnlockTokens, None, None, None))
    ensures r.data == [1, 0, 0, 0]
  {
    var data := InstructionData(InstructionProps(UnlockTokens, None, None, None));
    TransactionInstruction(UserAccounts(userPubkey), PROGRAM_ID, data.value)
  }

  /** The bytes of a record with only the duration set: `[2, 0, 1, le32(newDuration), 0]`. */
  lemma ModifyData(newDuration: nat)
    requires newDuration < U32_LIMIT
    ensures SerializeInstruction(Instruction(ModifyLockDuration, None, Some(newDuration), None)) == Ok([2, 0, 1] + U32(newDuration) + [0])
  {
    var f := EncodeFields(Instruction(ModifyLockDuration, None, Some(newDuration), None));
    assert f == Fields(None, Some(U32(newDuration)), None);
    assert FieldsBytes(f) == [0] + ([1] + U32(newDuration)) + [0];
    assert [Discriminant(ModifyLockDuration)] + FieldsBytes(f) == [2, 0, 1] + U32(newDuration) + [0];
  }

  /**
   * `modifyLockDurationInstruction(newDuration, ownerPubkey)`: only the
   * duration is set, and in this model it must fit the schema's `u32`; the
   * owner is the one signer.
   */
  function ModifyLockDurationInstruction(newDuration: int, ownerPubkey: PublicKey): (r: Result<TransactionInstruction, EncodeError>)
    ensures r.Ok? <==> 0 <= newDuration < U32_LIMIT
    ensures r.Err? ==> r.error == DurationOutOfRange(newDuration)
    ensures r.Ok? ==> r.value.programId == PROGRAM_ID
    ensures r.Ok? ==> r.value.keys == [AccountMeta(ownerPubkey, true, false)]
    ensures r.Ok? ==> DeserializeInstruction(r.value.data) == Ok(Instruction(ModifyLockDuration, None, Some(newDuration), None))
    ensures r.Ok? ==>
      && |r.value.data| == 8
      && r.value.data[0] == 2 && r.value.data[1] == 0 && r.value.data[2] == 1
      && LittleEndianValue(r.value.data[3..7]) == newDuration
      && r.value.data[7] == 0
  {
    var data :- InstructionData(InstructionProps(ModifyLockDuration, None, Some(newDuration), None));
    assert data[3..7] == U32(newDuration) by {
      ModifyData(newDuration);
      assert data == [2, 0, 1] + U32(newDuration) + [0];
    }
    Ok(TransactionInstruction([AccountMeta(ownerPubkey, true, false)], PROGRAM_ID, data))
  }

  /**
   * `forceUnlockInstruction(target, ownerPubkey)`: only the target is set;
   * the target's account comes first and is written, the owner signs.
   */
  function ForceUnlockInstruction(target: PublicKey, ownerPubkey: PublicKey): (r: TransactionInstruction)
    ensures r.programId == PROGRAM_ID
    ensures r.keys == [AccountMeta(target, false, true), AccountMeta(ownerPubkey, true, false)]
    ensures DeserializeInstruction(r.data) == Ok(Instruction(ForceUnlock, None, None, Some(target)))
    ensures r.data == [3, 0, 0, 1] + target
  {
    var data := InstructionData(InstructionProps(ForceUnlock, None, None, Some(target)));
    TransactionInstruction([AccountMeta(target, false, true), AccountMeta(ownerPubkey, true, false)], PROGRAM_ID, data.value)
  }

  /**
   * Locking 1.5 tokens of 10^9 base units each: the amount 1 500 000 000 is
   * 0x59682F00, written least significant byte first.
   */
  lemma LockOneAndAHalfTokens(amount: real, userPubkey: PublicKey)
    requires amount == 1500000000.0
    ensures LockTokensInstruction(amount, userPubkey).Ok?
    ensures LockTokensInstruction(amount, userPubkey).value.data
      == [0x00, 0x01, 0x00, 0x2F, 0x68, 0x59, 0x00, 0x00, 0x00, 0x00, 0x00, 0x00]
  {
    assert IsInteger(amount) && amount.Floor == 1500000000;
    var data := LockTokensInstruction(amount, userPubkey).value.data;
    OneAndAHalfBillionBytes(data[2..10]);
    JoinLockData(data, data[2..10]);
  }

  /** The eight bytes whose little-endian value is 1 500 000 000. */
  lemma OneAndAHalfBillionBytes(le: seq<byte>)
    requires |le| == 8 && LittleEndianValue(le) == 1500000000
    ensures le == [0x00, 0x2F, 0x68, 0x59, 0x00, 0x00, 0x00, 0x00]
  {
    var bytes: seq<byte> := [0x00, 0x2F, 0x68, 0x59, 0x00, 0x00, 0x00, 0x00];
    var zeros: seq<byte> := [0x00, 0x00, 0x00, 0x00];
    assert LittleEndianValue(zeros[3..]) == 0;
    assert LittleEndianValue(zeros[2..]) == 0;
    assert LittleEndianValue(zeros[1..]) == 0;
    assert LittleEndianValue(zeros) == 0;
    assert bytes[4..] == zeros;
    assert LittleEndianValue(bytes[3..]) == 0x59;
    assert LittleEndianValue(bytes[2..]) == 0x5968;
    assert LittleEndianValue(bytes[1..]) == 0x59682F;
    assert LittleEndianValue(bytes) == LittleEndianValue(le);
    LittleEndianOfValue(bytes);
    LittleEndianOfValue(le);
  }

  /** A 12-byte lock payload is its two header bytes, the amount bytes and the two absent tags. */
  lemma JoinLockData(data: seq<byte>, le: seq<byte>)
    requires |data| == 12 && data[0] == 0 && data[1] == 1 && data[10] == 0 && data[11] == 0
    requires data[2..10] == le && le == [0x00, 0x2F, 0x68, 0x59, 0x00, 0x00, 0x00, 0x00]
    ensures data == [0x00, 0x01, 0x00, 0x2F, 0x68, 0x59, 0x00, 0x00, 0x00, 0x00, 0x00, 0x00]
  {
  }
}
