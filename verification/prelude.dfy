/** Small datatypes and character predicates shared by the rest of the model. */
module Prelude {

  /** Python's `None` versus a value. */
  datatype Option<T> = None | Some(value: T) {

    /** The value, or `default` when there is none. */
    function GetOr(default: T): T {
      if Some? then value else default
    }
  }

  /** Whether a key of a dictionary (the Streamlit session state) has been written.
      A key holding Python `None` is `Present(None)`, which is not the same as `Absent`. */
  datatype Slot<T> = Absent | Present(value: T) {

    /** `dict.get(key, default)`. */
    function GetOr(default: T): T {
      if Present? then value else default
    }
  }

  /** One byte of an uploaded file or an object body. */
  newtype Byte = x: int | 0 <= x < 256

  predicate IsAsciiUpper(c: char) { 'A' <= c <= 'Z' }

  predicate IsAsciiLower(c: char) { 'a' <= c <= 'z' }

  predicate IsAsciiLetter(c: char) { IsAsciiUpper(c) || IsAsciiLower(c) }

  predicate IsDigit(c: char) { '0' <= c <= '9' }

  /** ASCII lower-casing; every other character is left alone. */
  function ToLower(c: char): (d: char)
    ensures IsAsciiUpper(c) ==> IsAsciiLower(d) && d as int == c as int + 32
    ensures !IsAsciiUpper(c) ==> d == c
  {
    if IsAsciiUpper(c) then (c as int + 32) as char else c
  }

  /** ASCII upper-casing; every other character is left alone. */
  function ToUpper(c: char): (d: char)
    ensures IsAsciiLower(c) ==> IsAsciiUpper(d) && d as int == c as int - 32
    ensures !IsAsciiLower(c) ==> d == c
  {
    if IsAsciiLower(c) then (c as int - 32) as char else c
  }

  /** The characters Python's `str.isspace` accepts, which are the ones `str.strip()` removes. */
  predicate IsSpace(c: char) {
    || c == ' ' || ('\t' <= c <= '\r') || ('\U{1C}' <= c <= '\U{1F}')
    || c == '\U{85}' || c == '\U{A0}' || c == '\U{1680}'
    || ('\U{2000}' <= c <= '\U{200A}')
    || c == '\U{2028}' || c == '\U{2029}' || c == '\U{202F}' || c == '\U{205F}' || c == '\U{3000}'
  }

  /** `s.strip()` is the empty string: `s` holds nothing but whitespace. */
  predicate IsBlank(s: string) {
    forall i :: 0 <= i < |s| ==> IsSpace(s[i])
  }

  predicate StartsWithChar(s: string, c: char) { |s| > 0 && s[0] == c }

  predicate EndsWithChar(s: string, c: char) { |s| > 0 && s[|s| - 1] == c }

  /** `s.startswith(prefix)`. */
  predicate StartsWith(s: string, prefix: string) {
    |prefix| <= |s| && s[..|prefix|] == prefix
  }
}
