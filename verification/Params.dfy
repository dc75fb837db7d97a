/** The sizes that kernel/param.h sets for the log and the buffer cache. */
module Params {

  const MAXOPBLOCKS := 10
  const LOGSIZE := MAXOPBLOCKS * 3
  const NBUF := MAXOPBLOCKS * 3
}
