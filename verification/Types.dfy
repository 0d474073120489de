// Constants, identifiers and error values shared by every crate
// (crates/tpx-core/src/types.rs).

module Wrappers {
  datatype Option<+T> = None | Some(value: T)

  /** A failure-compatible result, usable with `:-`. */
  datatype Result<+R, +E> = Success(value: R) | Failure(error: E) {
    predicate IsFailure() {
      Failure?
    }

    function PropagateFailure<U>(): Result<U, E>
      requires Failure?
    {
      Failure(error)
    }

    function Extract(): R
      requires Success?
    {
      value
    }
  }

  /** What a call that may run into a failing `unwrap` comes to. */
  datatype Outcome<+T> = Returned(result: T) | Panicked

  /** `map(Some)`. */
  function MapSome<R, E>(r: Result<R, E>): Result<Option<R>, E> {
    match r
    case Success(value) => Success(Some(value))
    case Failure(error) => Failure(error)
  }
}

module Types {
  import opened Wrappers

  newtype u8 = x: int | 0 <= x < 0x100
  type u16 = x: int | 0 <= x < 0x1_0000
  type u32 = x: int | 0 <= x < 0x1_0000_0000
  type u64 = x: int | 0 <= x < 0x1_0000_0000_0000_0000
  type u128 = x: int | 0 <= x < 0x1_0000_0000_0000_0000_0000_0000_0000_0000

  type Bytes = seq<u8>

  const U32_LIMIT := 0x1_0000_0000
  const U64_LIMIT := 0x1_0000_0000_0000_0000

  /** 32-bit wrap-around. */
  function Wrap32(n: int): u32 {
    n % 0x1_0000_0000
  }

  const HEADER_SIZE := 48
  const FOOTER_SIZE := 24
  const CHUNK_HEADER_SIZE := 16
  const CHUNK_ALIGN := 4096

  // "TPX\x01", "1XPT" and "1XPC"
  const MAGIC: Bytes := [0x54, 0x50, 0x58, 0x01]
  const MAGIC_END_FINAL: Bytes := [0x31, 0x58, 0x50, 0x54]
  const MAGIC_END_CHECKPOINT: Bytes := [0x31, 0x58, 0x50, 0x43]

  datatype DTypeId =
    | Float64 | Float32 | Float16 | BFloat16
    | Int64 | Int32 | Int16 | Int8
    | UInt64 | UInt32 | UInt16 | UInt8 | Bool

  datatype FilterId = NoFilter | ByteShuffle | BitShuffle | DeltaZigZag

  datatype CodecId = Raw | Chimp128 | Zstd | Lz4

  datatype OpenMode = ReadOnly | ReadWrite | Append

  datatype TpxError =
    | InvalidMagic
    | UnsupportedVersion(format: u16)
    | ChunkCrcMismatch(offset: nat, expected: u32, got: u32)
    | InvalidEndMagic
    | KeyNotFound
    | VersionNotFound(version: nat)
    | InvalidDType(dtype: u8)
    | InvalidFilter(filter: u8)
    | InvalidCodec(codec: u8)
    | InvalidAttrType(attrType: u8)
    | AttrValueTooLarge(len: nat)
    | BufferTooSmall(required: nat, provided: nat)
    | DecompressLengthMismatch(expectedLen: nat, gotLen: nat)
    | CodecError
    | ReadOnlyMode
    | Io
    | CorruptArchive

  datatype ChunkRef = ChunkRef(shardId: u16, chunkOffset: nat, chunkLen: u32)

  datatype Tensor = Tensor(dtype: DTypeId, shape: seq<u32>, data: Bytes)

  function DTypeCode(d: DTypeId): u8 {
    match d
    case Float64 => 0
    case Float32 => 1
    case Float16 => 2
    case BFloat16 => 3
    case Int64 => 4
    case Int32 => 5
    case Int16 => 6
    case Int8 => 7
    case UInt64 => 8
    case UInt32 => 9
    case UInt16 => 10
    case UInt8 => 11
    case Bool => 12
  }

  function DTypeFromU8(x: u8): Result<DTypeId, TpxError> {
    match x
    case 0 => Success(Float64)
    case 1 => Success(Float32)
    case 2 => Success(Float16)
    case 3 => Success(BFloat16)
    case 4 => Success(Int64)
    case 5 => Success(Int32)
    case 6 => Success(Int16)
    case 7 => Success(Int8)
    case 8 => Success(UInt64)
    case 9 => Success(UInt32)
    case 10 => Success(UInt16)
    case 11 => Success(UInt8)
    case 12 => Success(Bool)
    case _ => Failure(InvalidDType(x))
  }

  function FilterCode(f: FilterId): u8 {
    match f
    case NoFilter => 0
    case ByteShuffle => 1
    case BitShuffle => 2
    case DeltaZigZag => 3
  }

  function FilterFromU8(x: u8): Result<FilterId, TpxError> {
    match x
    case 0 => Success(NoFilter)
    case 1 => Success(ByteShuffle)
    case 2 => Success(BitShuffle)
    case 3 => Success(DeltaZigZag)
    case _ => Failure(InvalidFilter(x))
  }

  function CodecCode(c: CodecId): u8 {
    match c
    case Raw => 0
    case Chimp128 => 1
    case Zstd => 2
    case Lz4 => 3
  }

  function CodecFromU8(x: u8): Result<CodecId, TpxError> {
    match x
    case 0 => Success(Raw)
    case 1 => Success(Chimp128)
    case 2 => Success(Zstd)
    case 3 => Success(Lz4)
    case _ => Failure(InvalidCodec(x))
  }

  function ElementSize(d: DTypeId): nat {
    match d
    case Float64 | Int64 | UInt64 => 8
    case Float32 | Int32 | UInt32 => 4
    case Float16 | BFloat16 | Int16 | UInt16 => 2
    case Int8 | UInt8 | Bool => 1
  }
}
