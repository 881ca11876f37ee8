/** The character classes the scanner of assembler.py tests: `str.strip` (whitespace),
    `str.isnumeric`, SYMBOL_CHARS and SYMBOL_START_CHARS. */
module Chars {

  /** True when `c.strip()` is empty, i.e. Python's `str.isspace` for one character. */
  predicate IsSpace(c: char) {
    c == ' ' || ('\t' <= c <= '\r') || ('\U{1C}' <= c <= '\U{1F}') || c == '\U{85}' || c == '\U{A0}' ||
    c == '\U{1680}' || ('\U{2000}' <= c <= '\U{200A}') || c == '\U{2028}' || c == '\U{2029}' ||
    c == '\U{202F}' || c == '\U{205F}' || c == '\U{3000}'
  }

  /** `str.isnumeric`, restricted to the ASCII digits. */
  predicate IsDigit(c: char) {
    '0' <= c <= '9'
  }

  /** Membership in SYMBOL_START_CHARS: letters, `_`, `:`, `$` and `.`. */
  predicate IsSymbolStart(c: char) {
    ('a' <= c <= 'z') || ('A' <= c <= 'Z') || c == '_' || c == ':' || c == '$' || c == '.'
  }

  /** Membership in SYMBOL_CHARS: the start characters and the digits. */
  predicate IsSymbolChar(c: char) {
    IsSymbolStart(c) || IsDigit(c)
  }

  /** The classes the scanning loops run over. */
  datatype CharClass = Space | Digit | Symbol | NotNewline

  predicate InClass(c: char, cls: CharClass) {
    match cls
    case Space => IsSpace(c)
    case Digit => IsDigit(c)
    case Symbol => IsSymbolChar(c)
    case NotNewline => c != '\n'
  }

  /** `int(ds)` for a string of ASCII digits. */
  function DecimalValue(ds: string): nat
    requires forall k | 0 <= k < |ds| :: IsDigit(ds[k])
  {
    if ds == [] then 0
    else DecimalValue(ds[..|ds| - 1]) * 10 + DigitValue(ds[|ds| - 1])
  }

  function DigitValue(c: char): nat
    requires IsDigit(c)
  {
    c as int - '0' as int
  }
}
