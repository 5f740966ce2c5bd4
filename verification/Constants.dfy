/** Numbers the modules share: buffer sizes (src/alloc.h), database references (src/db.h) and
    attribute numbers (src/attrs.h). */
module Constants {
  const LBUF_SIZE: nat := 8000
  const MBUF_SIZE: nat := 400
  const SBUF_SIZE: nat := 64

  const NOTHING: int := -1
  const AMBIGUOUS: int := -2
  const GOD: int := 1

  const A_MONEY: nat := 25
  const A_LOCK: nat := 42
  const A_NAME: nat := 43
  const A_SEMAPHORE: nat := 47
  const A_LIST: nat := 253
  const A_USER_START: nat := 256
}
