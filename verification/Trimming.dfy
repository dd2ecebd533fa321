/** Trimming of ASCII white space. */
module Trimming {
  predicate IsWhite(c: char) { c in {' ', '\t', '\n', '\U{0B}', '\U{0C}', '\r'} }

  function TrimStart(s: string): string { if s != "" && IsWhite(s[0]) then TrimStart(s[1..]) else s }

  function TrimEnd(s: string): string {
    if s != "" && IsWhite(s[|s| - 1]) then TrimEnd(s[..|s| - 1]) else s
  }

  function Trim(s: string): string { TrimEnd(TrimStart(s)) }
}
