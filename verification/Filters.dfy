// Choosing a filter by its identifier (crates/tpx-filter/src/lib.rs).

module Filters {
  import opened Types
  import Bytewise = ByteShuffle
  import Bitwise = BitShuffle
  import Deltas = DeltaZigZag

  /** What `get_filter(id).apply` computes. */
  function Apply(filter: FilterId, block: Bytes, dtype: DTypeId): Bytes {
    match filter
    case NoFilter => block
    case ByteShuffle => Bytewise.Shuffled(block, ElementSize(dtype))
    case BitShuffle => Bitwise.Shuffled(block)
    case DeltaZigZag => Deltas.Apply(block, dtype)
  }

  /** What `get_filter(id).revert` computes. */
  function Revert(filter: FilterId, block: Bytes, dtype: DTypeId): Bytes {
    match filter
    case NoFilter => block
    case ByteShuffle => Bytewise.Unshuffled(block, ElementSize(dtype))
    case BitShuffle => Bitwise.Unshuffled(block)
    case DeltaZigZag => Deltas.Revert(block, dtype)
  }

  /** Every filter is a bijection on blocks of every length, for every element type. */
  lemma RoundTrip(filter: FilterId, block: Bytes, dtype: DTypeId)
    ensures Revert(filter, Apply(filter, block, dtype), dtype) == block
    ensures Apply(filter, Revert(filter, block, dtype), dtype) == block
  {
    match filter
    case NoFilter =>
    case ByteShuffle => Bytewise.RoundTrip(block, ElementSize(dtype));
    case BitShuffle => Bitwise.RoundTrip(block);
    case DeltaZigZag => Deltas.RoundTrip(block, dtype);
  }

  /** What each filter writes for elements of a width. */
  ghost predicate Forms(block: Bytes, dtype: DTypeId, width: nat)
    requires width > 0
  {
    && Apply(NoFilter, block, dtype) == block
    && Bytewise.Runs(block, Apply(ByteShuffle, block, dtype), width)
    && Bitwise.Planes(block, Apply(BitShuffle, block, dtype))
    && (dtype !in {Float64, Float32, Float16, BFloat16} ==> Deltas.Steps(block, Apply(DeltaZigZag, block, dtype), width, 0))
    && (dtype in {Float64, Float32, Float16, BFloat16} ==> Apply(DeltaZigZag, block, dtype) == block)
  }

  lemma FormsByType(block: Bytes, dtype: DTypeId)
    ensures dtype in {Float64, Int64, UInt64} ==> Forms(block, dtype, 8)
    ensures dtype in {Float32, Int32, UInt32} ==> Forms(block, dtype, 4)
    ensures dtype in {Float16, BFloat16, Int16, UInt16} ==> Forms(block, dtype, 2)
    ensures dtype in {Int8, UInt8, Bool} ==> Forms(block, dtype, 1)
  {
    hide Deltas.Steps, Bytewise.Runs, Bitwise.Planes, Bytewise.Shuffled, Bitwise.Shuffled, Deltas.Apply;
    Bytewise.ShuffledRuns(block, ElementSize(dtype));
    Bitwise.ShuffledPlanes(block);
    Deltas.StepsByType(block, dtype);
  }

  method ApplyFilter(filter: FilterId, block: Bytes, dtype: DTypeId) returns (out: Bytes)
    ensures out == Apply(filter, block, dtype)
  {
    match filter
    case NoFilter => out := block;
    case ByteShuffle => out := Bytewise.Shuffle(block, ElementSize(dtype));
    case BitShuffle => out := Bitwise.Shuffle(block);
    case DeltaZigZag => out := Deltas.Encode(block, dtype);
  }

  method RevertFilter(filter: FilterId, block: Bytes, dtype: DTypeId) returns (out: Bytes)
    ensures out == Revert(filter, block, dtype)
  {
    match filter
    case NoFilter => out := block;
    case ByteShuffle => out := Bytewise.Unshuffle(block, ElementSize(dtype));
    case BitShuffle => out := Bitwise.Unshuffle(block);
    case DeltaZigZag => out := Deltas.Decode(block, dtype);
  }
}
