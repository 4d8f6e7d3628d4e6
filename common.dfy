// Byte strings, C strings and hex digits shared by the reader firmware model.
//
// A C `char` buffer is modelled by the string it holds up to its terminating
// NUL; the bytes after the terminator are not part of the model.

module Common {

  type byte = bv8

  datatype Option<T> = None | Some(value: T)

  /** The text of a NUL-terminated C string: it never holds a NUL itself. */
  type CStr = s: string | '\0' !in s

  /** `n` zero bytes, as left by `memset(buf, 0, n)` or `byte buf[n] = {0}`. */
  function Zeros(n: nat): (r: seq<byte>)
    ensures |r| == n
    ensures forall i :: 0 <= i < n ==> r[i] == 0
  {
    seq(n, _ => 0)
  }

  /** The low byte of a character, as a C `char` holds it. */
  function CharByte(c: char): byte
  {
    ((c as int) % 256) as byte
  }

  /** The bytes of a string, one per character. */
  function Bytes(s: string): (r: seq<byte>)
    ensures |r| == |s|
    ensures forall i :: 0 <= i < |s| ==> r[i] == CharByte(s[i])
  {
    seq(|s|, i requires 0 <= i < |s| => CharByte(s[i]))
  }

  /** `isxdigit` in the C locale. */
  predicate IsHexDigit(c: char)
  {
    ('0' <= c <= '9') || ('a' <= c <= 'f') || ('A' <= c <= 'F')
  }

  /** `isalnum` in the C locale. */
  predicate IsAlnum(c: char)
  {
    ('0' <= c <= '9') || ('a' <= c <= 'z') || ('A' <= c <= 'Z')
  }

  /** The value of one hex digit, as `%x` reads it. */
  function HexDigitValue(c: char): (v: nat)
    requires IsHexDigit(c)
    ensures v < 16
  {
    if '0' <= c <= '9' then (c as int) - ('0' as int)
    else if 'a' <= c <= 'f' then (c as int) - ('a' as int) + 10
    else (c as int) - ('A' as int) + 10
  }

  /** The upper-case digit `%X` prints for a value below 16. */
  function UpperHexDigit(v: nat): (c: char)
    requires v < 16
    ensures IsHexDigit(c) && HexDigitValue(c) == v
    ensures !('a' <= c <= 'f')
  {
    if v < 10 then (('0' as int) + v) as char else (('A' as int) + v - 10) as char
  }

  /**
   * What `strlen` sees of a string: everything before the first NUL.
   */
  function CString(s: string): (r: CStr)
    ensures |r| <= |s| && r == s[..|r|]
    ensures |r| < |s| ==> s[|r|] == '\0'
  {
    if s == [] then []
    else if s[0] == '\0' then []
    else [s[0]] + CString(s[1..])
  }

  /**
   * `strlcpy(dst, src, size)`: the destination holds at most `size - 1`
   * characters of the C string `src`, then a NUL.
   */
  function Strlcpy(src: string, size: nat): (r: CStr)
    requires size >= 1
    ensures |r| == if |CString(src)| < size then |CString(src)| else size - 1
    ensures r == CString(src)[..|r|]
  {
    var c := CString(src);
    if |c| < size then c else c[..size - 1]
  }

  /** A string that fits a buffer of `size` bytes unchanged is copied as is. */
  lemma StrlcpyKeepsFittingString(s: string, size: nat)
    requires size >= 1 && |s| < size && '\0' !in s
    ensures Strlcpy(s, size) == s
  {
    CStringOfPlainString(s);
  }

  lemma {:induction false} CStringOfPlainString(s: string)
    requires '\0' !in s
    ensures CString(s) == s
  {
    if s != [] {
      assert s[0] != '\0';
      assert '\0' !in s[1..];
      CStringOfPlainString(s[1..]);
    }
  }
}
