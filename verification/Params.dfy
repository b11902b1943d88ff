/** The kernel's compile-time constants (kernel/param.h, kernel/fs.h, mkfs/mkfs.c). */
module Params {
  const NPROC: nat := 64
  const MAXOPBLOCKS: nat := 10
  const LOGSIZE: nat := MAXOPBLOCKS * 3
  const NBUF: nat := MAXOPBLOCKS * 3
  const BSIZE: nat := 1024
  // mkfs lays out exactly LOGSIZE log blocks, header included.
  const NLOG: nat := LOGSIZE
  const UINT_LIMIT: nat := 0x1_0000_0000
}
