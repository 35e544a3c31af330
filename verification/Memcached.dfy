/** What every store in the system has in common: kinds of writes, and times to live. */
module Memcached {
  import opened Bytes

  /** Over 30 days a time to live is taken for a moment in time. */
  const REAL_TIME_MAX_DELTA := 2592000

  /** When memcached expires an item stored now with this time to live; 0 is never. */
  function Deadline(ttl: uint32, now: nat): nat {
    if ttl == 0 then 0 else if ttl > REAL_TIME_MAX_DELTA then ttl else now + ttl
  }

  /** A clock past the first 30 days of the epoch and short of the end of 32 bits. */
  predicate Clock(now: nat) {
    REAL_TIME_MAX_DELTA < now < TWO_TO_THE_32 - REAL_TIME_MAX_DELTA
  }

  datatype SetKind = KindSet | KindAdd | KindReplace

  function Joined(atEnd: bool, stored: bytes, added: bytes): bytes {
    if atEnd then stored + added else added + stored
  }
}
