/** Styles and per-line state of the Vim lexer (LexVim.cxx).

    The lexer keeps its line state in an int with four flag bits: a line
    comment (bit 0), a line continuation (bit 1), an `autocmd` line (bit 2) and
    `vim9script` mode (bit 3).  Here the flags are a record; `Encode` gives
    the int that is stored for a line and `Bit` reads one flag back from a
    stored int. */
module VimStyles {

  datatype VimStyle =
    | DEFAULT | COMMENTLINE | NUMBER | IDENTIFIER | WORD | WORD_DEMOTED | COMMANDS | FUNCTION
    | STRING_DQ | STRING_SQ | ESCAPECHAR | REGEX | BLOB_HEX | ENV_VARIABLE | OPTION | REGISTER | OPERATOR

  const MaskLineComment: int := 1
  const MaskLineContinuation: int := 2
  const MaskAutoCommand: int := 4
  const MaskVim9Script: int := 8

  datatype VimLineFlags = VimLineFlags(lineComment: bool, continuation: bool, autoCommand: bool, vim9Script: bool)

  const NoFlags: VimLineFlags := VimLineFlags(false, false, false, false)

  function BitValue(b: bool, mask: int): int { if b then mask else 0 }

  /** The int the lexer stores for a line. */
  function Encode(f: VimLineFlags): (x: int)
    ensures 0 <= x < 16
  {
    BitValue(f.lineComment, MaskLineComment) + BitValue(f.continuation, MaskLineContinuation)
    + BitValue(f.autoCommand, MaskAutoCommand) + BitValue(f.vim9Script, MaskVim9Script)
  }

  /** Whether the flag `mask` (a power of two) is set in x. */
  predicate Bit(x: int, mask: int)
    requires mask == 1 || mask == 2 || mask == 4 || mask == 8
  {
    (x / mask) % 2 == 1
  }

  /** `lineState &= MaskAutoCommand | MaskVim9Script`: the flags that carry into
      the next line. */
  function CarryOver(f: VimLineFlags): VimLineFlags
  {
    VimLineFlags(false, false, f.autoCommand, f.vim9Script)
  }

  /** The flags a range starts with after a line whose stored state is x. */
  function RestoredFlags(x: int): VimLineFlags
  {
    VimLineFlags(false, false, Bit(x, MaskAutoCommand), Bit(x, MaskVim9Script))
  }

  /** Each flag reads back from the stored int. */
  lemma EncodeBits(f: VimLineFlags)
    ensures Bit(Encode(f), MaskLineComment) == f.lineComment
    ensures Bit(Encode(f), MaskLineContinuation) == f.continuation
    ensures Bit(Encode(f), MaskAutoCommand) == f.autoCommand
    ensures Bit(Encode(f), MaskVim9Script) == f.vim9Script
  {
    var x := Encode(f);
    var b0, b1, b2, b3 := BitValue(f.lineComment, 1), BitValue(f.continuation, 1),
                          BitValue(f.autoCommand, 1), BitValue(f.vim9Script, 1);
    assert x == ((b3 * 2 + b2) * 2 + b1) * 2 + b0;
    HalfOf((b3 * 2 + b2) * 2 + b1, b0);
    HalfOf(b3 * 2 + b2, b1);
    HalfOf(b3, b2);
    assert x / 2 == (b3 * 2 + b2) * 2 + b1;
    assert x / 4 == b3 * 2 + b2 by { assert x / 4 == (x / 2) / 2; }
    assert x / 8 == b3 by { assert x / 8 == (x / 4) / 2; }
  }

  lemma HalfOf(q: int, b: int)
    requires 0 <= q && (b == 0 || b == 1)
    ensures (q * 2 + b) / 2 == q && (q * 2 + b) % 2 == b
  {
  }

  /** A restart on the next line resumes with exactly the carried flags. */
  lemma RestoreCarries(f: VimLineFlags)
    ensures RestoredFlags(Encode(f)) == CarryOver(f)
  {
    EncodeBits(f);
  }

  /** The two bits the folder reads from a line state. */
  datatype FoldLineState = FoldLineState(lineComment: int, lineContinuation: int)

  function FoldLineStateOf(lineState: int): (f: FoldLineState)
    ensures 0 <= f.lineComment <= 1 && 0 <= f.lineContinuation <= 1
  {
    FoldLineState(lineState % 2, (lineState / 2) % 2)
  }

  /** The folder sees the comment and continuation flags the colouriser stored. */
  lemma FoldLineStateOfEncode(f: VimLineFlags)
    ensures FoldLineStateOf(Encode(f)).lineComment == (if f.lineComment then 1 else 0)
    ensures FoldLineStateOf(Encode(f)).lineContinuation == (if f.continuation then 1 else 0)
  {
    EncodeBits(f);
  }
}
