/** What the memtable and the tables store of a version's payload. */
module StoredValues {
  import opened Bytes
  import opened Versions
  import opened Varint
  import Ikey

  const EXPIRY_PREFIX: nat := 8

  /** The stored bytes of a payload: a deadline goes before its value. */
  function Stored(p: Payload): Bytes
    requires p.Expiring? ==> p.expiresAt >= 0
  {
    match p
    case Tombstone => []
    case Plain(v) => v
    case Expiring(v, x) => PutLe(x, EXPIRY_PREFIX) + v
  }

  /** Sequences and deadlines that their encodings can carry. */
  predicate Encodable(e: Entry) {
    e.sqn <= Ikey.MAX_SEQ && (e.payload.Expiring? ==> 0 < e.payload.expiresAt <= MAX_INT64)
  }
}
