/** Character classes and small helpers shared by the lexers.

    The predicates the two lexers call over single characters.  The ones whose
    definitions live in the lexer library (IsDecimalNumber, IsIdentifierCharEx,
    IsCommentTagPrev, IsInvalidUrlChar, ...) are given simple ASCII stand-ins here;
    nothing is proved about their internals. */
module CharClass {

  /** Reading a position outside the document yields NUL, as the accessor does. */
  function CharAt(doc: seq<char>, i: int): (ch: char)
    ensures 0 <= i < |doc| ==> ch == doc[i]
    ensures !(0 <= i < |doc|) ==> ch == '\0'
  {
    if 0 <= i < |doc| then doc[i] else '\0'
  }

  predicate IsEOLChar(ch: char) { ch == '\r' || ch == '\n' }

  predicate IsADigit(ch: char) { '0' <= ch <= '9' }

  predicate IsOctalDigit(ch: char) { '0' <= ch <= '7' }

  predicate IsHexDigit(ch: char)
  {
    IsADigit(ch) || 'a' <= ch <= 'f' || 'A' <= ch <= 'F'
  }

  /** The digit class an escape sequence consumes: hexadecimal or octal. */
  predicate IsOctalOrHex(ch: char, hex: bool)
  {
    if hex then IsHexDigit(ch) else IsOctalDigit(ch)
  }

  predicate IsASpaceOrTab(ch: char) { ch == ' ' || ch == '\t' }

  /** isspacechar: space, tab, line feed, vertical tab, form feed, carriage return. */
  predicate IsSpaceChar(ch: char) { ch == ' ' || '\t' <= ch <= '\r' }

  predicate IsAGraphic(ch: char) { '!' <= ch <= '~' }

  predicate IsLowerCase(ch: char) { 'a' <= ch <= 'z' }

  predicate IsUpperCase(ch: char) { 'A' <= ch <= 'Z' }

  predicate IsAlpha(ch: char) { IsLowerCase(ch) || IsUpperCase(ch) }

  predicate IsAlphaNumeric(ch: char) { IsAlpha(ch) || IsADigit(ch) }

  predicate IsIdentifierStart(ch: char) { IsAlpha(ch) || ch == '_' }

  predicate IsIdentifierChar(ch: char) { IsAlphaNumeric(ch) || ch == '_' }

  /** The "Ex" variants also accept any non-ASCII character. */
  predicate IsIdentifierStartEx(ch: char) { IsIdentifierStart(ch) || ch >= '\U{80}' }

  predicate IsIdentifierCharEx(ch: char) { IsIdentifierChar(ch) || ch >= '\U{80}' }

  predicate IsNumberStart(ch: char, chNext: char)
  {
    IsADigit(ch) || (ch == '.' && IsADigit(chNext))
  }

  /** Stand-in for the library's number-continuation test: letters, digits and
      underscores, a single dot, and a sign right after an exponent letter. */
  predicate IsDecimalNumber(chPrev: char, ch: char, chNext: char)
  {
    IsIdentifierChar(ch)
    || (ch == '.' && chNext != '.')
    || ((ch == '+' || ch == '-') && (chPrev == 'e' || chPrev == 'E' || chPrev == 'p' || chPrev == 'P'))
  }

  /** Stand-in: a documentation tag may follow white space or the comment's star. */
  predicate IsCommentTagPrev(ch: char) { ch <= ' ' || ch == '*' }

  /** Stand-in: the characters that end a URL inside a string. */
  predicate IsInvalidUrlChar(ch: char)
  {
    ch <= ' ' || ch == '"' || ch == '\'' || ch == '<' || ch == '>' || ch == '\\'
    || ch == '^' || ch == '`' || ch == '{' || ch == '|' || ch == '}' || ch > '~'
  }

  /** Stand-in: the characters after which `name:` starts a statement (a jump label). */
  predicate IsJumpLabelPrevChar(ch: char) { ch == ';' || ch == '{' || ch == '}' }

  function Min(a: int, b: int): int { if a <= b then a else b }

  /** The n characters from i are all decimal digits. */
  predicate AllDigits(doc: seq<char>, i: nat, n: nat)
    decreases n
  {
    n == 0 || (IsADigit(CharAt(doc, i)) && AllDigits(doc, i + 1, n - 1))
  }

  /** Each character of a digit run is a digit. */
  lemma {:induction false} AllDigitsAt(doc: seq<char>, i: nat, n: nat)
    requires AllDigits(doc, i, n)
    ensures forall k :: i <= k < i + n ==> IsADigit(CharAt(doc, k))
    decreases n
  {
    if n > 0 {
      AllDigitsAt(doc, i + 1, n - 1);
    }
  }

  /** Length of the run of decimal digits starting at i. */
  function DigitRun(doc: seq<char>, i: nat): (n: nat)
    ensures i + n <= |doc| || n == 0
    ensures AllDigits(doc, i, n)
    ensures !IsADigit(CharAt(doc, i + n))
    decreases |doc| - i
  {
    if i < |doc| && IsADigit(doc[i]) then 1 + DigitRun(doc, i + 1) else 0
  }

  /** Length of the run of octal (or, with hex, hexadecimal) digits starting at i. */
  function OctalOrHexRun(doc: seq<char>, i: nat, hex: bool): (n: nat)
    ensures i + n <= |doc| || n == 0
    ensures forall k :: i <= k < i + n ==> IsOctalOrHex(CharAt(doc, k), hex)
    ensures !IsOctalOrHex(CharAt(doc, i + n), hex)
    decreases |doc| - i
  {
    if i < |doc| && IsOctalOrHex(doc[i], hex) then 1 + OctalOrHexRun(doc, i + 1, hex) else 0
  }

  function ToLower(ch: char): (r: char)
    ensures IsUpperCase(ch) ==> IsLowerCase(r)
    ensures !IsUpperCase(ch) ==> r == ch
  {
    if IsUpperCase(ch) then (ch as int + 32) as char else ch
  }
}
