/** An abstract model of the lexer library's StyleContext cursor.

    The cursor walks the document from `startPos` to `endPos`.  Positions before
    `segStart` are styled (their styles are in `styles`, one per position, starting
    at `startPos`); the span [segStart, pos) is open and will get `state` unless it
    is relabelled first.  `SetState` closes the open span with the old state,
    `ChangeState` relabels it, `Forward` advances (doing nothing at the end of the
    range), `Rewind` steps back one position inside the open span, and `Complete`
    flushes the last span.  Lines end with '\n'. */
module StyleContext {
  import opened CharClass

  /** `n` copies of style `s`. */
  function Fill<S>(s: S, n: nat): (r: seq<S>)
    ensures |r| == n
    ensures forall i :: 0 <= i < n ==> r[i] == s
  {
    seq(n, _ => s)
  }

  /** Number of line feeds in doc[..i]: the line that position i is on. */
  function LineOf(doc: seq<char>, i: nat): nat
    requires i <= |doc|
  {
    if i == 0 then 0 else LineOf(doc, i - 1) + (if doc[i - 1] == '\n' then 1 else 0)
  }

  /** The position just after the first line feed at or after i, or |doc|. */
  function NextLineStart(doc: seq<char>, i: nat): (r: nat)
    requires i <= |doc|
    ensures i < r <= |doc| || r == i == |doc|
    ensures forall k :: i <= k < r - 1 ==> doc[k] != '\n'
    ensures r < |doc| ==> doc[r - 1] == '\n'
    decreases |doc| - i
  {
    if i == |doc| then i
    else if doc[i] == '\n' then i + 1
    else NextLineStart(doc, i + 1)
  }

  /** Start of line `line`; |doc| for lines past the last one. */
  function LineStart(doc: seq<char>, line: nat): (r: nat)
    ensures r <= |doc|
  {
    if line == 0 then 0 else NextLineStart(doc, LineStart(doc, line - 1))
  }

  /** The first character at or after i that is not white space, or NUL. */
  function NextNonSpace(doc: seq<char>, i: nat): (ch: char)
    ensures ch == '\0' || !IsSpaceChar(ch)
    decreases |doc| - i
  {
    if i >= |doc| then '\0'
    else if !IsSpaceChar(doc[i]) then doc[i]
    else NextNonSpace(doc, i + 1)
  }

  /** The first character at or after i on i's line that is not white space, or NUL. */
  function LineNextNonSpace(doc: seq<char>, i: nat): (ch: char)
    ensures ch != '\n'
    decreases |doc| - i
  {
    if i >= |doc| || doc[i] == '\n' then '\0'
    else if !IsSpaceChar(doc[i]) then doc[i]
    else LineNextNonSpace(doc, i + 1)
  }

  datatype Cursor<S> = Cursor(doc: seq<char>, startPos: nat, endPos: nat,
                              pos: nat, state: S, segStart: nat, styles: seq<S>)
  {
    ghost predicate Valid()
    {
      startPos <= segStart <= pos <= endPos <= |doc| && |styles| == segStart - startPos
    }

    /** The style already given to position i. */
    function StyleOf(i: nat): S
      requires Valid() && startPos <= i < segStart
    {
      styles[i - startPos]
    }

    function Ch(): char { CharAt(doc, pos) }
    function ChNext(): char { CharAt(doc, pos + 1) }
    function ChPrev(): char { CharAt(doc, pos - 1) }
    function GetRelative(n: int): char { CharAt(doc, pos + n) }

    predicate More() { pos < endPos }
    predicate AtLineStart() { pos == 0 || CharAt(doc, pos - 1) == '\n' }
    predicate AtLineEnd() { CharAt(doc, pos) == '\n' || pos + 1 >= |doc| }
    predicate Match(a: char, b: char) { Ch() == a && ChNext() == b }
    predicate Match3(a: char, b: char, c: char) { Ch() == a && ChNext() == b && GetRelative(2) == c }
    predicate MatchNext(a: char, b: char) { ChNext() == a && GetRelative(2) == b }

    function CurrentLine(): nat requires pos <= |doc| { LineOf(doc, pos) }
    function LengthCurrent(): nat requires segStart <= pos { pos - segStart }
    function GetCurrent(): string requires segStart <= pos <= |doc| { doc[segStart..pos] }
    function GetDocNextChar(ignoreCurrent: bool): char
    {
      NextNonSpace(doc, if ignoreCurrent then pos + 1 else pos)
    }
    function GetLineNextChar(): char { LineNextNonSpace(doc, pos) }

    /** Closes the open span with the current state and opens one in state s. */
    function SetState(s: S): (r: Cursor<S>)
      requires segStart <= pos
      ensures Valid() ==> r.Valid()
      ensures r.doc == doc && r.startPos == startPos && r.endPos == endPos
      ensures r.pos == pos && r.segStart == pos && r.state == s
      ensures r.styles == styles + Fill(state, pos - segStart)
      ensures Valid() ==> forall i :: startPos <= i < segStart ==> r.StyleOf(i) == StyleOf(i)
      ensures Valid() ==> forall i :: segStart <= i < pos ==> r.StyleOf(i) == state
    {
      this.(styles := styles + Fill(state, pos - segStart), segStart := pos, state := s)
    }

    /** Relabels the open span. */
    function ChangeState(s: S): (r: Cursor<S>)
      ensures r == this.(state := s)
      ensures Valid() ==> r.Valid()
    {
      this.(state := s)
    }

    function Forward(): (r: Cursor<S>)
      ensures Valid() ==> r.Valid()
      ensures r == this.(pos := r.pos)
      ensures r.pos == if pos < endPos then pos + 1 else pos
    {
      if pos < endPos then this.(pos := pos + 1) else this
    }

    /** Forward n times; the range end stops it. */
    function ForwardBy(n: nat): (r: Cursor<S>)
      requires pos <= endPos
      ensures Valid() ==> r.Valid()
      ensures r == this.(pos := r.pos)
      ensures r.pos == Min(pos + n, endPos)
    {
      this.(pos := Min(pos + n, endPos))
    }

    function ForwardSetState(s: S): (r: Cursor<S>)
      requires segStart <= pos
      ensures Valid() ==> r.Valid()
    {
      Forward().SetState(s)
    }

    /** One step back, but never into the already styled part. */
    function Rewind(): (r: Cursor<S>)
      ensures Valid() ==> r.Valid()
      ensures r == this.(pos := r.pos)
      ensures r.pos == if pos > segStart then pos - 1 else pos
    {
      if pos > segStart then this.(pos := pos - 1) else this
    }

    /** Flushes the open span; at the end of a scan every position is styled once. */
    function Complete(): (r: Cursor<S>)
      requires Valid() && pos == endPos
      ensures r.Valid() && r.segStart == endPos && |r.styles| == endPos - startPos
      ensures forall i :: startPos <= i < segStart ==> r.StyleOf(i) == StyleOf(i)
      ensures forall i :: segStart <= i < endPos ==> r.StyleOf(i) == state
    {
      SetState(state)
    }
  }

  /** A cursor over [startPos, startPos + length) in state initStyle. */
  function NewCursor<S>(doc: seq<char>, startPos: nat, length: nat, initStyle: S): (c: Cursor<S>)
    requires startPos + length <= |doc|
    ensures c.Valid() && c.pos == c.segStart == startPos && c.endPos == startPos + length
    ensures c.styles == [] && c.state == initStyle
  {
    Cursor(doc, startPos, startPos + length, startPos, initStyle, startPos, [])
  }
}
