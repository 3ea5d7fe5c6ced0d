/**
  The byte-level vocabulary of Windows path prefixes: the byte type, the ASCII
  constants the grammar mentions, the two separator predicates, the drive-letter
  predicate and ASCII upper-casing (src/libstd/sys/windows/path.rs:15-29).
 */
module ByteClass {

  /** One byte of the path's byte view (Rust `u8`). */
  newtype byte = b: int | 0 <= b < 256

  const SLASH: byte := 47       // '/'
  const BACKSLASH: byte := 92   // '\'
  const COLON: byte := 58       // ':'
  const QUESTION: byte := 63    // '?'
  const DOT: byte := 46         // '.'
  const UPPER_U: byte := 85     // 'U'
  const UPPER_N: byte := 78     // 'N'
  const UPPER_C: byte := 67     // 'C'

  /** Rust's `u8::is_ascii_uppercase`: 'A'..='Z'. */
  predicate IsAsciiUppercase(b: byte) {
    65 <= b <= 90
  }

  /** Rust's `u8::is_ascii_lowercase`: 'a'..='z'. */
  predicate IsAsciiLowercase(b: byte) {
    97 <= b <= 122
  }

  /** Rust's `u8::is_ascii_alphabetic`. */
  predicate IsAsciiAlphabetic(b: byte) {
    IsAsciiUppercase(b) || IsAsciiLowercase(b)
  }

  /** Rust's `u8::to_ascii_uppercase`: 'a'..='z' move to 'A'..='Z', every other byte is kept. */
  function ToAsciiUppercase(b: byte): (r: byte)
    ensures !IsAsciiLowercase(b) ==> r == b
    ensures IsAsciiAlphabetic(b) <==> IsAsciiUppercase(r)
    ensures IsAsciiLowercase(b) ==> r as int + 32 == b as int
  {
    if IsAsciiLowercase(b) then b - 32 else b
  }

  /** `is_sep_byte`: either slash style separates components of a plain path. */
  predicate IsSepByte(b: byte) {
    b == SLASH || b == BACKSLASH
  }

  /** `is_verbatim_sep`: inside a `\\?\` path only the backslash separates. */
  predicate IsVerbatimSep(b: byte) {
    b == BACKSLASH
  }

  /** `is_valid_drive_letter`: an ASCII letter, whatever its case. */
  predicate IsValidDriveLetter(disk: byte) {
    IsAsciiAlphabetic(disk)
  }

  /**
    How the byte classes relate: every verbatim separator is a separator and the
    slash is the only other one; no separator is a drive letter; upper-casing
    maps drive letters onto 'A'..'Z', is idempotent and does not change which
    bytes are drive letters.
   */
  lemma ByteClasses(b: byte)
    ensures IsVerbatimSep(b) ==> IsSepByte(b)
    ensures IsSepByte(b) && !IsVerbatimSep(b) <==> b == SLASH
    ensures IsSepByte(b) ==> !IsValidDriveLetter(b) && b != COLON
    ensures IsValidDriveLetter(b) <==> IsAsciiUppercase(ToAsciiUppercase(b))
    ensures IsValidDriveLetter(ToAsciiUppercase(b)) <==> IsValidDriveLetter(b)
    ensures ToAsciiUppercase(ToAsciiUppercase(b)) == ToAsciiUppercase(b)
  {
  }
}
