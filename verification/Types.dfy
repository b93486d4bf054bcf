/** `SessionState` of internal/types/types.go; times are integers (nanoseconds). */
module Types {

  /** A payload id, as bytes. */
  type Key = seq<bv8>

  datatype SessionState = SessionState(original: string, masked: string, mapping: map<string, string>, expiresAt: int)
}
