# Token-lock instruction encoder

A model of the client-side encoder of a Solana token-lock program
(`utils/tokenLockProgram.ts`). Each of four operations becomes a
`TransactionInstruction`: the program id, an ordered list of accounts with
signer and writable flags that the on-chain program reads by position, and a
byte payload.

The payload is the Borsh serialisation of the record
`{ instruction: u8, amount: Option<u64>, newDuration: Option<u32>, target: Option<[u8; 32]> }`:
the discriminant byte (LockTokens = 0, UnlockTokens = 1,
ModifyLockDuration = 2, ForceUnlock = 3), then each option as a tag byte
(0 = None, 1 = Some) followed, only when present, by its value in
little-endian order (8, 4 and 32 bytes). The builders set only the field
their operation needs:

| builder | accounts | data |
|---|---|---|
| lock | (user, signer, writable), (system program, -, -) | `[0, 1, le64(amount), 0, 0]`, 12 bytes |
| unlock | (user, signer, writable), (system program, -, -) | `[1, 0, 0, 0]` |
| modify duration | (owner, signer, -) | `[2, 0, 1, le32(duration), 0]`, 8 bytes |
| force unlock | (target, -, writable), (owner, signer, -) | `[3, 0, 0, 1, target]`, 36 bytes |

Files:

- `wrappers.dfy` — `Option` and `Result`.
- `borsh.dfy` — the Borsh pieces the schema uses: little-endian `u32`/`u64`,
  option tags, and readers that consume exactly what the writers produce.
- `token_lock_program.dfy` — the instruction kinds, the `Instruction`
  record and its constructor, `serializeInstruction`, a decoder for the same
  schema, and the four builders.

Bytes are the integers 0 to 255 (a `newtype`), the value set of `u8`.
Public keys are their 32 raw bytes. `PROGRAM_ID` is the base58 key
`GFGyUDBPeKyhveN6NMb2LUF3L4x88dyr3HtWoJ18FiED` written out as bytes, and the
system program's id is 32 zero bytes. Every builder is a Dafny function, so
equal arguments give equal instructions by construction.

The amount is a JavaScript number, modelled as a `real`: `BigInt(amount)`
throws when it has a fraction (`AmountNotInteger`). The source itself checks
no range; the model rejects an amount that the schema's `u64` cannot hold,
that is a negative one or one of at least 2^64 (`AmountOutOfRange`), and a
duration that the schema's `u32` cannot hold (`DurationOutOfRange`). Errors
are returned before any byte is produced.

The decoder is the inverse of the serialiser: it rejects an empty input, a
discriminant other than 0 to 3, an option tag other than 0 or 1, a value cut
short, and bytes left over. Records that fit the schema round-trip through it
in both directions, so serialisation is injective.

The `Instruction` constructor (utils/tokenLockProgram.ts:20-25) accepts any
combination of fields and checks none of them, so the model's serialiser
accepts every combination too. A `PublicKey` always has 32 bytes, so
`PublicKey` is a type of 32-byte sequences. Locking 1 500 000 000 base units
(1.5 tokens of 10^9 units) gives the amount bytes `00 2F 68 59 00 00 00 00`
(lemma `LockOneAndAHalfTokens`).

## Model

| member | source | states |
|---|---|---|
| Borsh.LittleEndianValue | utils/tokenLockProgram.ts:33-34 | the number read from n little-endian bytes is below 256^n |
| Borsh.LittleEndian | utils/tokenLockProgram.ts:33-34 | the width-byte little-endian encoding of n has exactly width bytes and reads back as n |
| Borsh.LittleEndianOfValue | utils/tokenLockProgram.ts:33-34 | reading bytes as a number and re-encoding at the same width gives the same bytes |
| Borsh.U64 | utils/tokenLockProgram.ts:33 | a `u64` is 8 bytes whose little-endian value is the amount |
| Borsh.U32 | utils/tokenLockProgram.ts:34 | a `u32` is 4 bytes whose little-endian value is the duration |
| Borsh.OptionBytes | utils/tokenLockProgram.ts:33-35 | an option starts with tag byte 1 when present and 0 when absent |
| Borsh.ReadU8 | utils/tokenLockProgram.ts:32 | reading a `u8` succeeds exactly on non-empty input and splits off its first byte |
| Borsh.ReadFixed | utils/tokenLockProgram.ts:35 | reading a fixed-width field succeeds exactly when enough bytes remain and splits them off |
| Borsh.ReadOption | utils/tokenLockProgram.ts:33-35 | an option read consumes exactly the encoding of what it returns; tags above 1 and truncated values are errors |
| Borsh.ReadOptionBytes | utils/tokenLockProgram.ts:33-35 | an encoded option is read back unchanged whatever follows it (the option encoding is prefix-free) |
| TokenLockProgram.InstructionTypeOf | utils/tokenLockProgram.ts:7-12 | exactly the bytes 0 to 3 name an instruction kind |
| TokenLockProgram.Discriminant | utils/tokenLockProgram.ts:7-12 | each kind's discriminant is below 4 and names that kind back |
| TokenLockProgram.NewInstruction | utils/tokenLockProgram.ts:20-25 | the constructor fails exactly when a given amount has a fraction, and otherwise copies the kind, duration and target and keeps the amount's value |
| TokenLockProgram.EncodeFields | utils/tokenLockProgram.ts:33-35 | each present field is encoded at its schema width, and presence is kept field by field |
| TokenLockProgram.DecodeFields | utils/tokenLockProgram.ts:33-35 | decoded fields fit the schema and re-encode to the same bytes |
| TokenLockProgram.SerializeInstruction | utils/tokenLockProgram.ts:28-43 | serialisation succeeds exactly when amount fits `u64` and duration fits `u32`, reports the amount first, and yields PayloadLength bytes starting with the discriminant |
| TokenLockProgram.ReadFields | utils/tokenLockProgram.ts:33-35 | reading the three options consumes the whole input and the widths match the schema |
| TokenLockProgram.ReadFieldsBytes | utils/tokenLockProgram.ts:33-35 | the three encoded options are read back unchanged |
| TokenLockProgram.DeserializeInstruction | utils/tokenLockProgram.ts:28-38 | decoded records fit the schema and carry the first byte as discriminant; empty input and discriminants above 3 are errors |
| TokenLockProgram.SerializeThenDeserialize | utils/tokenLockProgram.ts:28-43 | decoding the serialisation of any record that fits the schema gives back the record |
| TokenLockProgram.DeserializeThenSerialize | utils/tokenLockProgram.ts:28-43 | any accepted byte sequence is the serialisation of what it decodes to |
| TokenLockProgram.SerializeInjective | utils/tokenLockProgram.ts:28-43 | different records that fit the schema serialise to different bytes |
| TokenLockProgram.InstructionData | utils/tokenLockProgram.ts:40-43 | `serializeInstruction(new Instruction(props))` succeeds exactly when both steps do, and its bytes decode to the constructed record |
| TokenLockProgram.LockData | utils/tokenLockProgram.ts:46 | a record with only an amount serialises to `[0, 1] + le64(amount) + [0, 0]` |
| TokenLockProgram.LockTokensInstruction | utils/tokenLockProgram.ts:45-56 | lock succeeds exactly for a whole amount in [0, 2^64), names the error otherwise, targets PROGRAM_ID with accounts (user, signer, writable), (system program), and its 12 data bytes are 0, 1, the amount in little-endian, 0, 0, decoding to a lock with only the amount |
| TokenLockProgram.UnlockTokensInstruction | utils/tokenLockProgram.ts:58-69 | unlock targets PROGRAM_ID with accounts (user, signer, writable), (system program), and data `[1, 0, 0, 0]` decoding to an unlock with no field |
| TokenLockProgram.ModifyData | utils/tokenLockProgram.ts:72 | a record with only a duration serialises to `[2, 0, 1] + le32(duration) + [0]` |
| TokenLockProgram.ModifyLockDurationInstruction | utils/tokenLockProgram.ts:71-81 | modify succeeds exactly for a duration in [0, 2^32), targets PROGRAM_ID with the one account (owner, signer, read-only), and its 8 data bytes are 2, 0, 1, the duration in little-endian, 0, decoding to a modify with only the duration |
| TokenLockProgram.ForceUnlockInstruction | utils/tokenLockProgram.ts:83-94 | force unlock targets PROGRAM_ID with accounts (target, writable) then (owner, signer), and data `[3, 0, 0, 1] + target` decoding to a force unlock with only the target |
| TokenLockProgram.LockOneAndAHalfTokens | utils/tokenLockProgram.ts:45-56 | locking 1 500 000 000 base units gives the data bytes `00 01 00 2F 68 59 00 00 00 00 00 00` |

## Left out

- The page in `pages/index.tsx` (wallet hooks, balance display, sending and confirming transactions, owner gating of the buttons): it is UI and network code around the encoder.
- The conversion of a displayed amount to base units (`parseFloat(...) * LAMPORTS_PER_SOL`) and `parseInt` of the duration: floating-point parsing; the builders take the resulting numbers.
- NaN and infinite amounts: a `real` cannot hold them (`BigInt` would reject them like a fraction).
- ModifyLockDurationInstruction: takes the duration as an integer; fractional durations and NaN or infinite ones (`parseInt` of an empty field gives NaN) lie outside the `int` domain and are not modelled.
- Base58 parsing and `PublicKey` construction: keys are 32-byte sequences and both program ids are constants.
- SerializeInstruction, LockTokensInstruction, ModifyLockDurationInstruction, ForceUnlockInstruction: the `borsh` library's real handling of out-of-range values (for example, whether a negative amount is rejected or written as its magnitude) and of the schema's mixed syntax (a class-keyed `Map` at line 28 beside a `{ array: { type, len } }` field at line 35, forms from different library versions) is not modelled; whether a record serialises without throwing depends on that library version. The model follows the byte format the schema declares, rejects values `u64` or `u32` cannot hold, and lets unlock and force unlock always succeed.
- The `createInstruction` helper and the second `PROGRAM_ID` in `pages/index.tsx`: unused.
- `RPC_ENDPOINT`: a network setting the encoder does not use.
