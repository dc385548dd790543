// What the two font back ends (src/core/fonts/bdf-font.ts and
// src/core/fonts/canvas-font.ts) have in common: the size class a display
// height selects, the `text.trim() === ''` test for blank text, and the page
// directory the default font resolvers start from.
module FontCommon {
  import opened Types

  /** getHeightKey: the font size class for a display height. */
  function HeightKey(height: int): (k: int)
    ensures k == 16 || k == 24 || k == 32
    ensures k == 16 <==> height <= 18
    ensures k == 32 <==> height > 28
  {
    if height <= 18 then 16 else if height <= 28 then 24 else 32
  }

  /** A taller display never selects a smaller size class. */
  lemma HeightKeyMonotone(h1: int, h2: int)
    requires h1 <= h2
    ensures HeightKey(h1) <= HeightKey(h2)
  {
  }

  /** The characters String.prototype.trim removes: the white space and
      line terminator code points of ECMAScript. */
  predicate IsJsSpace(c: char)
  {
    c == '\t' || c == '\n' || c == '\U{000B}' || c == '\U{000C}' || c == '\r' || c == ' ' ||
    c == '\U{00A0}' || c == '\U{1680}' || ('\U{2000}' <= c <= '\U{200A}') || c == '\U{2028}' ||
    c == '\U{2029}' || c == '\U{202F}' || c == '\U{205F}' || c == '\U{3000}' || c == '\U{FEFF}'
  }

  /** `!text || text.trim() === ''`: empty, or nothing but white space. */
  predicate IsBlank(text: string)
  {
    forall i :: 0 <= i < |text| ==> IsJsSpace(text[i])
  }

  /** `lastIndexOf('/')`: the last index holding a slash, or -1. */
  function LastSlash(s: string): (i: int)
    ensures -1 <= i < |s|
    ensures i >= 0 ==> s[i] == '/'
    ensures forall k :: i < k < |s| ==> s[k] != '/'
  {
    if s == [] then -1
    else if s[|s| - 1] == '/' then |s| - 1
    else LastSlash(s[..|s| - 1])
  }

  /** The page directory: the pathname up to and including its last slash. */
  function BasePath(pathname: string): (b: string)
    ensures b <= pathname
    ensures b == [] || b[|b| - 1] == '/'
    ensures forall k :: |b| <= k < |pathname| ==> pathname[k] != '/'
  {
    pathname[..LastSlash(pathname) + 1]
  }

  /** `fileName || fontName`: the file when one is given and not empty. */
  function FileOr(file: Option<string>, name: string): (f: string)
    ensures file.Some? && file.value != "" ==> f == file.value
    ensures file.None? || file.value == "" ==> f == name
  {
    if file.Some? && file.value != "" then file.value else name
  }
}
