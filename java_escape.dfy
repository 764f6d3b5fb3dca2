/** The Java lexer's escape-sequence sub-scanner (LexJava.cxx, struct EscapeSequence).

    An escape starts at a backslash inside a string.  It remembers the string
    style to go back to and a digit budget: five for `\u` (hexadecimal), three
    for an octal digit, one for any other character.  Every later character
    spends one unit, and the escape ends once the budget is spent or the
    character is not a digit of the escape's base. */
module JavaEscape {
  import opened CharClass
  import opened JavaStyles

  datatype EscapeSeq = EscapeSeq(outerState: JavaStyle, digitsLeft: int, hex: bool)

  /** The value the scanner starts with. */
  const InitialEscape: EscapeSeq := EscapeSeq(DEFAULT, 0, false)

  /** The budget an escape gets from the character after the backslash. */
  function Budget(chNext: char): (n: int)
    ensures n == 1 || n == 3 || n == 5
  {
    if chNext == 'u' then 5 else if IsOctalDigit(chNext) then 3 else 1
  }

  /** resetEscapeState: whether an escape starts, and the escape state after the call. */
  function ResetEscape(e: EscapeSeq, state: JavaStyle, chNext: char): (r: (bool, EscapeSeq))
  {
    if IsEOLChar(chNext) then (false, e)
    else if chNext == 'u' then (true, EscapeSeq(state, 5, true))
    else if IsOctalDigit(chNext) then (true, EscapeSeq(state, 3, false))
    else (true, e.(outerState := state, digitsLeft := 1))
  }

  /** atEscapeEnd: spends one unit of the budget on ch and says whether the escape is over. */
  function EscapeEnd(e: EscapeSeq, ch: char): (r: (bool, EscapeSeq))
  {
    var e' := e.(digitsLeft := e.digitsLeft - 1);
    (e'.digitsLeft <= 0 || !IsOctalOrHex(ch, e.hex), e')
  }

  /** An escape starts exactly when the backslash is not at the end of the line;
      it then records the interrupted style and the budget for its introducer. */
  lemma ResetEscapeBudget(e: EscapeSeq, state: JavaStyle, chNext: char)
    ensures ResetEscape(e, state, chNext).0 <==> !IsEOLChar(chNext)
    ensures !ResetEscape(e, state, chNext).0 ==> ResetEscape(e, state, chNext).1 == e
    ensures ResetEscape(e, state, chNext).0 ==>
      var e' := ResetEscape(e, state, chNext).1;
      e'.outerState == state && e'.digitsLeft == Budget(chNext) && e'.digitsLeft >= 1
      && (chNext == 'u' ==> e'.hex) && (IsOctalDigit(chNext) ==> !e'.hex)
  {
  }

  /** Number of characters after the introducer that the escape takes in
      before it ends, starting with the character at i. */
  function EscapeDigits(e: EscapeSeq, doc: seq<char>, i: nat): nat
    decreases if e.digitsLeft > 0 then e.digitsLeft else 0
  {
    var (end, e') := EscapeEnd(e, CharAt(doc, i));
    if end then 0 else 1 + EscapeDigits(e', doc, i + 1)
  }

  /** The escape takes in as many digits as the budget leaves and the digit run allows. */
  lemma {:induction false} EscapeDigitsLength(e: EscapeSeq, doc: seq<char>, i: nat)
    requires e.digitsLeft >= 1
    ensures EscapeDigits(e, doc, i) == Min(e.digitsLeft - 1, OctalOrHexRun(doc, i, e.hex))
    decreases e.digitsLeft
  {
    var (end, e') := EscapeEnd(e, CharAt(doc, i));
    if !end {
      EscapeDigitsLength(e', doc, i + 1);
      assert OctalOrHexRun(doc, i, e.hex) == 1 + OctalOrHexRun(doc, i + 1, e.hex);
    }
  }

  /** The same sub-scanner as an object whose methods update its fields in place. */
  class EscapeSequence {
    var outerState: JavaStyle
    var digitsLeft: int
    var hex: bool

    function Value(): EscapeSeq
      reads this
    {
      EscapeSeq(outerState, digitsLeft, hex)
    }

    constructor ()
      ensures Value() == InitialEscape
    {
      outerState := DEFAULT;
      digitsLeft := 0;
      hex := false;
    }

    method ResetEscapeState(state: JavaStyle, chNext: char) returns (ok: bool)
      modifies this
      ensures (ok, Value()) == ResetEscape(old(Value()), state, chNext)
    {
      if IsEOLChar(chNext) {
        return false;
      }
      outerState := state;
      digitsLeft := 1;
      if chNext == 'u' {
        digitsLeft := 5;
        hex := true;
      } else if IsOctalDigit(chNext) {
        digitsLeft := 3;
        hex := false;
      }
      return true;
    }

    method AtEscapeEnd(ch: char) returns (end: bool)
      modifies this
      ensures (end, Value()) == EscapeEnd(old(Value()), ch)
    {
      digitsLeft := digitsLeft - 1;
      end := digitsLeft <= 0 || !IsOctalOrHex(ch, hex);
    }
  }
}
