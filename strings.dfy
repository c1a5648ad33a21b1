/**
 * Character classes and the ActiveSupport notion of a blank string, as used
 * by the `presence:` and `allow_blank:` validation options.
 */
module Strings {
  import opened Wrappers

  /** Ruby's `[[:space:]]` on a UTF-8 string: the Unicode White_Space characters. */
  predicate IsSpace(c: char)
  {
    ('\t' <= c <= '\r') || c == ' ' || c == '\U{0085}' || c == '\U{00A0}' || c == '\U{1680}'
    || ('\U{2000}' <= c <= '\U{200A}') || c == '\U{2028}' || c == '\U{2029}'
    || c == '\U{202F}' || c == '\U{205F}' || c == '\U{3000}'
  }

  /** `String#blank?`: empty, or nothing but white space. */
  predicate BlankString(s: string)
  {
    forall i :: 0 <= i < |s| ==> IsSpace(s[i])
  }

  /** `Object#blank?` on a nullable string column: `nil` is blank too. */
  predicate Blank(v: Option<string>)
  {
    v.None? || BlankString(v.value)
  }

  /** What `presence: true` accepts. */
  predicate Present(v: Option<string>)
  {
    !Blank(v)
  }

  /**
   * The length a `length:` validator measures: `String#length` counts
   * characters, and a `nil` value is measured as `nil.to_s`, the empty string.
   */
  function Length(v: Option<string>): nat
  {
    match v
    case None => 0
    case Some(s) => |s|
  }

  /** `nil.to_s` is the empty string; a string is itself. */
  function ToS(v: Option<string>): string
  {
    match v
    case None => ""
    case Some(s) => s
  }

  /** Ruby's `\d`, which matches ASCII digits only. */
  predicate IsDigit(c: char)
  {
    '0' <= c <= '9'
  }

  /** `[a-zA-Z]` */
  predicate IsAsciiLetter(c: char)
  {
    ('a' <= c <= 'z') || ('A' <= c <= 'Z')
  }

  predicate AllDigits(s: string)
  {
    forall i :: 0 <= i < |s| ==> IsDigit(s[i])
  }

  predicate AllAsciiLetters(s: string)
  {
    forall i :: 0 <= i < |s| ==> IsAsciiLetter(s[i])
  }
}
