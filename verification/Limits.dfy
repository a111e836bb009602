/** Bounds a reader checks against the sizes a file declares about itself. */
module Limits {
  import opened Bytes

  /** Each bound is an inclusive maximum. */
  datatype Limits = Limits(
    maxFrameHeaderLength: u64,
    maxFramePayloadLength: u64,
    maxSchemaColumns: u64,
    maxSchemaFieldLength: u64,
    maxBlocks: u64,
    maxRowsPerBlock: u64,
    maxDecodedBlockBytes: u64,
    maxRowsPerScan: u64,
    maxDecodedScanBytes: u64)

  const DEFAULT: Limits := Limits(
    64 * 1024 * 1024,
    4 * 1024 * 1024 * 1024,
    65_536,
    16 * 1024 * 1024,
    10_000_000,
    16 * 1024 * 1024,
    1024 * 1024 * 1024,
    U64 - 1,
    U64 - 1)

  /** Limits under which a reader accepts every frame the writer may produce. */
  predicate Generous(limits: Limits) {
    && limits.maxFrameHeaderLength >= DEFAULT.maxFrameHeaderLength
    && limits.maxFramePayloadLength >= DEFAULT.maxFramePayloadLength
    && limits.maxRowsPerBlock >= DEFAULT.maxRowsPerBlock
    && limits.maxSchemaColumns >= DEFAULT.maxSchemaColumns
    && limits.maxSchemaFieldLength >= DEFAULT.maxSchemaFieldLength
  }
}
