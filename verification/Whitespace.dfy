/** Stripping white space from both ends of a text. */
module Whitespace {

  /** White space, as far as Latin-1 goes. */
  predicate White(c: char) {
    c == ' ' || '\t' <= c <= '\r' || 28 as char <= c <= 31 as char || c == 133 as char || c == 160 as char
  }

  function StripLeft(s: string): string {
    if s != "" && White(s[0]) then StripLeft(s[1..]) else s
  }

  function StripRight(s: string): string {
    if s != "" && White(s[|s| - 1]) then StripRight(s[..|s| - 1]) else s
  }

  function Strip(s: string): string {
    StripRight(StripLeft(s))
  }

  /** A row that stripping leaves alone. */
  predicate Solid(row: string) {
    row != "" && !White(row[0]) && !White(row[|row| - 1])
  }

  lemma Stripped(row: string)
    requires Solid(row)
    ensures Strip(row) == row && Strip("  " + row) == row
  {
    var (once, twice) := (" " + row, "  " + row);
    assert StripLeft(row) == row;
    assert once[0] == ' ' && once[1..] == row && StripLeft(once) == row;
    assert twice[0] == ' ' && twice[1..] == once && StripLeft(twice) == row;
  }

  /** A text with a solid beginning and a solid end is solid. */
  lemma SolidEnds(a: string, b: string)
    requires a != "" && !White(a[0]) && b != "" && !White(b[|b| - 1])
    ensures Solid(a + b)
  {
    assert (a + b)[0] == a[0] && (a + b)[|a + b| - 1] == b[|b| - 1];
  }
}
