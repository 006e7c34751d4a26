/** Declarations that several parts of the history share. */
module Types {

  /** The characters of a sha256 sum in hex, the shortest hash the index accepts. */
  const HASH_LEN := 64

  /** The reply codes, some of them also cache states; Invalid is the source's -999. */
  datatype Case = CaseLock | CasePass | CaseDupes | CaseRetry | CaseAdded | CaseWrite | CaseError | Invalid

  /** An item of a cache's expiry queue and the time it is due, in nanoseconds. */
  datatype PQItem = PQItem(key: string, expires: int)
}
