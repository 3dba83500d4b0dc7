/** What several parts of the model share: optional values, the invalid oid, and the size
    of a database's index tables. */
module Common {
  datatype Option<T> = None | Some(value: T)

  /** The oid of nothing. */
  const InvalidOid: nat := 0

  const MAX_INDEXES: nat := 64
}
