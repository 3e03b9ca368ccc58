/** Go strings and byte slices: both are sequences of bytes. */
module ByteStrings {

  /** A Go byte. */
  type byte = b: int | 0 <= b < 256

  type Bytes = seq<byte>

  const NL: byte := 10     // '\n'
  const EQ: byte := 61     // '='
  const COLON: byte := 58  // ':'
  const MINUS: byte := 45  // '-'
  const PLUS: byte := 43   // '+'
  const DOT: byte := 46    // '.'
  const ZERO: byte := 48   // '0'

  predicate IsDigit(b: byte) {
    ZERO <= b <= ZERO + 9
  }

  predicate AllDigits(s: Bytes) {
    forall i | 0 <= i < |s| :: IsDigit(s[i])
  }

  predicate NoNewline(s: Bytes) {
    NL !in s
  }
}
