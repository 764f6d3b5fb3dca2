/** The Vim lexer's escape-sequence sub-scanner (LexVim.cxx, struct EscapeSequence).

    After a backslash in a double-quoted string the next character picks a
    digit budget: three for `\x` and `\X`, five for `\u`, nine for `\U` (all
    hexadecimal), three for an octal digit, and one for the single-character
    escapes `\\ \" \b \e \f \n \r \t`.  Any other character starts no escape.
    Every later character spends one unit, and the escape ends once the budget
    is spent or the character is not a digit of the escape's base. */
module VimEscape {
  import opened CharClass

  predicate IsVimEscapeChar(ch: char)
  {
    ch == '\\' || ch == '"' || ch == 'b' || ch == 'e' || ch == 'f' || ch == 'n' || ch == 'r' || ch == 't'
  }

  datatype EscapeSeq = EscapeSeq(digitsLeft: int, hex: bool)

  const InitialEscape: EscapeSeq := EscapeSeq(0, false)

  /** resetEscapeState: whether an escape starts, and the escape state after the call. */
  function ResetEscape(chNext: char): (r: (bool, EscapeSeq))
  {
    var e :=
      if chNext == 'x' || chNext == 'X' then EscapeSeq(3, true)
      else if chNext == 'u' then EscapeSeq(5, true)
      else if chNext == 'U' then EscapeSeq(9, true)
      else if IsOctalDigit(chNext) then EscapeSeq(3, false)
      else if IsVimEscapeChar(chNext) then EscapeSeq(1, true)
      else EscapeSeq(0, true);
    (e.digitsLeft != 0, e)
  }

  /** atEscapeEnd: spends one unit of the budget on ch and says whether the escape is over. */
  function EscapeEnd(e: EscapeSeq, ch: char): (r: (bool, EscapeSeq))
  {
    var e' := e.(digitsLeft := e.digitsLeft - 1);
    (e'.digitsLeft <= 0 || !IsOctalOrHex(ch, e.hex), e')
  }

  /** The table: which introducers start an escape, with which budget and base. */
  lemma ResetEscapeTable(chNext: char)
    ensures ResetEscape(chNext).0 <==>
              chNext == 'x' || chNext == 'X' || chNext == 'u' || chNext == 'U'
              || IsOctalDigit(chNext) || IsVimEscapeChar(chNext)
    ensures (chNext == 'x' || chNext == 'X') ==> ResetEscape(chNext).1 == EscapeSeq(3, true)
    ensures chNext == 'u' ==> ResetEscape(chNext).1 == EscapeSeq(5, true)
    ensures chNext == 'U' ==> ResetEscape(chNext).1 == EscapeSeq(9, true)
    ensures IsOctalDigit(chNext) ==> ResetEscape(chNext).1 == EscapeSeq(3, false)
    ensures IsVimEscapeChar(chNext) ==> ResetEscape(chNext).1.digitsLeft == 1
    ensures !ResetEscape(chNext).0 ==> ResetEscape(chNext).1 == EscapeSeq(0, true)
  {
  }

  /** A one-character escape ends on the character after its introducer, whatever it is. */
  lemma SingleCharEscapeEnds(chNext: char, ch: char)
    requires IsVimEscapeChar(chNext)
    ensures EscapeEnd(ResetEscape(chNext).1, ch).0
  {
  }

  /** Number of characters after the introducer that the escape takes in
      before it ends, starting with the character at i. */
  function EscapeDigits(e: EscapeSeq, doc: seq<char>, i: nat): nat
    decreases if e.digitsLeft > 0 then e.digitsLeft else 0
  {
    var (end, e') := EscapeEnd(e, CharAt(doc, i));
    if end then 0 else 1 + EscapeDigits(e', doc, i + 1)
  }

  /** The escape takes in as many digits as the budget leaves and the digit run allows. */
  lemma {:induction false} EscapeDigitsLength(e: EscapeSeq, doc: seq<char>, i: nat)
    requires e.digitsLeft >= 1
    ensures EscapeDigits(e, doc, i) == Min(e.digitsLeft - 1, OctalOrHexRun(doc, i, e.hex))
    decreases e.digitsLeft
  {
    var (end, e') := EscapeEnd(e, CharAt(doc, i));
    if !end {
      EscapeDigitsLength(e', doc, i + 1);
      assert OctalOrHexRun(doc, i, e.hex) == 1 + OctalOrHexRun(doc, i + 1, e.hex);
    }
  }

  /** The same sub-scanner as an object whose methods update its fields in place. */
  class EscapeSequence {
    var digitsLeft: int
    var hex: bool

    function Value(): EscapeSeq
      reads this
    {
      EscapeSeq(digitsLeft, hex)
    }

    constructor ()
      ensures Value() == InitialEscape
    {
      digitsLeft := 0;
      hex := false;
    }

    method ResetEscapeState(chNext: char) returns (ok: bool)
      modifies this
      ensures (ok, Value()) == ResetEscape(chNext)
    {
      digitsLeft := 0;
      hex := true;
      if chNext == 'x' || chNext == 'X' {
        digitsLeft := 3;
      } else if chNext == 'u' {
        digitsLeft := 5;
      } else if chNext == 'U' {
        digitsLeft := 9;
      } else if IsOctalDigit(chNext) {
        digitsLeft := 3;
        hex := false;
      } else if IsVimEscapeChar(chNext) {
        digitsLeft := 1;
      }
      ok := digitsLeft != 0;
    }

    method AtEscapeEnd(ch: char) returns (end: bool)
      modifies this
      ensures (end, Value()) == EscapeEnd(old(Value()), ch)
    {
      digitsLeft := digitsLeft - 1;
      end := digitsLeft <= 0 || !IsOctalOrHex(ch, hex);
    }
  }
}
