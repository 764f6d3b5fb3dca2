/** The Java folder: it reads the style stream back, counts brackets and multi-line
    spans, and stores `current | next << 16 | header` for every line it passes.

    The document's styles and line states are inputs (what the colouriser left
    behind); the levels already stored are an input map and the result is that map
    with the lines the folder passes overwritten. */
module JavaFold {
  import opened CharClass
  import opened StyleContext
  import opened JavaStyles
  import opened FoldLevel

  /** What the folder reads: the text, its styles, the per-line states, and the end of the range. */
  datatype FoldEnv = FoldEnv(doc: seq<char>, styles: seq<JavaStyle>, lineStates: map<nat, int>, endPos: nat)

  /** The folder's loop variables. `style` is the style of the position before `pos`
      and `styleNext` the style at `pos`. */
  datatype FoldScan = FoldScan(pos: nat, style: JavaStyle, styleNext: JavaStyle, line: nat, lineStartNext: nat,
                               levelCurrent: int, levelNext: int, foldPrev: FoldLineState,
                               foldCurrent: FoldLineState, visibleChars: int, levels: map<nat, int>)

  /** A style lookup past the styled text reads the default style. */
  function StyleAt(env: FoldEnv, i: int): JavaStyle
  {
    if 0 <= i < |env.styles| then env.styles[i] else DEFAULT
  }

  /** A line without a stored state reads 0. */
  function LineStateAt(env: FoldEnv, line: nat): int
  {
    if line in env.lineStates then env.lineStates[line] else 0
  }

  /** A line without a stored level has the base level. */
  function LevelAt(levels: map<nat, int>, line: nat): int
  {
    if line in levels then levels[line] else SC_FOLDLEVELBASE
  }

  /** The styles whose spans fold: block and doc comments, text blocks and triple templates. */
  predicate IsFoldSpanStyle(st: JavaStyle)
  {
    st == COMMENTBLOCK || st == COMMENTBLOCKDOC || st == TRIPLE_STRING || st == TRIPLE_TEMPLATE
  }

  predicate IsOpenBracket(ch: char) { ch == '{' || ch == '[' || ch == '(' }

  predicate IsCloseBracket(ch: char) { ch == '}' || ch == ']' || ch == ')' }

  predicate IsOperatorStyle(st: JavaStyle) { st == OPERATOR || st == OPERATOR2 }

  /** The change in level contributed by one character of style `style` between
      `prev` and `next`. */
  function FoldDelta(prev: JavaStyle, style: JavaStyle, next: JavaStyle, ch: char): (d: int)
    ensures -1 <= d <= 1
  {
    if IsFoldSpanStyle(style) then
      (if style != prev then 1 else 0) - (if style != next then 1 else 0)
    else if IsOperatorStyle(style) then
      (if IsOpenBracket(ch) then 1 else if IsCloseBracket(ch) then -1 else 0)
    else 0
  }

  /** The first position at or after i that is not a space or a tab. */
  function SkipSpaceTab(doc: seq<char>, i: nat): (r: nat)
    ensures i <= r && (r < |doc| || r == i || r == |doc|)
    ensures forall k :: i <= k < r ==> k < |doc| && IsASpaceOrTab(doc[k])
    decreases |doc| - i
  {
    if i < |doc| && IsASpaceOrTab(doc[i]) then SkipSpaceTab(doc, i + 1) else i
  }

  /** Stand-in for the library's brace check: the position of a `{` styled as an
      operator that starts the line after `line`, or 0. */
  function BraceOnNextLine(env: FoldEnv, line: nat): (r: nat)
    ensures r == 0 || (LineStart(env.doc, line + 1) <= r < |env.doc| && env.doc[r] == '{')
  {
    var p := SkipSpaceTab(env.doc, LineStart(env.doc, line + 1));
    if p < |env.doc| && env.doc[p] == '{' && StyleAt(env, p) == OPERATOR then p else 0
  }

  /** The invariant of the loop: the end of the line is the start of the next one
      (or the end of the range), and `styleNext` is the style at `pos`. */
  ghost predicate FoldInv(env: FoldEnv, s: FoldScan)
  {
    env.endPos <= |env.doc|
    && s.lineStartNext == Min(LineStart(env.doc, s.line + 1), env.endPos)
    && s.styleNext == StyleAt(env, s.pos)
    && IsFoldBits(s.foldPrev) && IsFoldBits(s.foldCurrent)
  }

  predicate IsFoldBits(f: FoldLineState)
  {
    0 <= f.lineComment <= 1 && 0 <= f.packageImport <= 1
  }

  /** The state before the loop, for a range starting at startPos. */
  function FoldInit(env: FoldEnv, levels: map<nat, int>, startPos: nat, initStyle: JavaStyle): (s: FoldScan)
    requires startPos <= env.endPos <= |env.doc|
    ensures FoldInv(env, s) && s.line == LineOf(env.doc, startPos)
  {
    var line := LineOf(env.doc, startPos);
    var levelCurrent := if line > 0 then LevelNextOf(LevelAt(levels, line - 1)) else SC_FOLDLEVELBASE;
    var foldPrev := if line > 0 then FoldLineStateOf(LineStateAt(env, line - 1)) else FoldLineStateOf(0);
    var brace := if line > 0 then BraceOnNextLine(env, line - 1) else 0;
    var pos := if brace != 0 then brace + 1 else startPos;
    FoldScan(pos, initStyle, StyleAt(env, pos), line, Min(LineStart(env.doc, line + 1), env.endPos),
             levelCurrent, levelCurrent, foldPrev, FoldLineStateOf(LineStateAt(env, line)), 0, levels)
  }

  /** The end of a line: clamp, the comment and import adjustments, the brace on
      the next line, the stored level, and the move to the next line. */
  function LineEnd(env: FoldEnv, t: FoldScan): (r: FoldScan)
    requires env.endPos <= |env.doc|
  {
    var foldNext := FoldLineStateOf(LineStateAt(env, t.line + 1));
    var clamped := if t.levelNext < SC_FOLDLEVELBASE then SC_FOLDLEVELBASE else t.levelNext;
    var brace := BraceOnNextLine(env, t.line);
    var jump := t.foldCurrent.lineComment == 0 && t.foldCurrent.packageImport == 0
                && t.visibleChars != 0 && brace != 0;
    var levelNext :=
      if t.foldCurrent.lineComment != 0 then clamped + foldNext.lineComment - t.foldPrev.lineComment
      else if t.foldCurrent.packageImport != 0 then clamped + foldNext.packageImport - t.foldPrev.packageImport
      else if jump then clamped + 1
      else clamped;
    var pos := if jump then brace + 1 else t.pos;
    FoldScan(pos, if jump then OPERATOR else t.style, if jump then StyleAt(env, pos) else t.styleNext, t.line + 1,
             Min(LineStart(env.doc, t.line + 2), env.endPos), levelNext, levelNext,
             t.foldCurrent, foldNext, 0, t.levels[t.line := PackLevel(t.levelCurrent, levelNext)])
  }

  /** The first half of an iteration: the character at `pos` is counted and the
      scan moves past it. */
  function CountChar(env: FoldEnv, s: FoldScan): FoldScan
  {
    var style := s.styleNext;
    var p := s.pos + 1;
    var levelNext := s.levelNext + FoldDelta(s.style, style, StyleAt(env, p), CharAt(env.doc, p - 1));
    var visible := if s.visibleChars == 0 && !IsSpaceEquiv(style) then s.visibleChars + 1 else s.visibleChars;
    s.(pos := p, style := style, styleNext := StyleAt(env, p), levelNext := levelNext, visibleChars := visible)
  }

  /** One iteration of the loop: the character at `pos` is counted, and a line end handled. */
  function FoldStep(env: FoldEnv, s: FoldScan): (r: FoldScan)
    requires FoldInv(env, s) && s.pos < env.endPos
    ensures FoldInv(env, r) && r.pos > s.pos
  {
    var t := CountChar(env, s);
    if t.pos == s.lineStartNext then LineEnd(env, t) else t
  }

  /** The loop, run to the end of the range. */
  function FoldRun(env: FoldEnv, s: FoldScan): (r: FoldScan)
    requires FoldInv(env, s)
    ensures r.line >= s.line
    decreases env.endPos - s.pos
  {
    if s.pos < env.endPos then FoldRun(env, FoldStep(env, s)) else s
  }

  /** n iterations within the range. */
  function FoldSteps(env: FoldEnv, s: FoldScan, n: nat): (r: FoldScan)
    requires FoldInv(env, s)
    ensures FoldInv(env, r)
    decreases n
  {
    if n == 0 || s.pos >= env.endPos then s else FoldSteps(env, FoldStep(env, s), n - 1)
  }

  /** The level change of the characters in [i, j), each seen with its neighbours' styles. */
  function SumDelta(env: FoldEnv, i: nat, j: nat): int
    requires i <= j
    decreases j - i
  {
    if i == j then 0
    else FoldDelta(StyleAt(env, i as int - 1), StyleAt(env, i), StyleAt(env, i + 1), CharAt(env.doc, i))
         + SumDelta(env, i + 1, j)
  }

  /** The end-of-line block of the folder's loop. */
  method EndOfLine(env: FoldEnv, t: FoldScan) returns (r: FoldScan)
    requires env.endPos <= |env.doc|
    ensures r == LineEnd(env, t)
  {
    var startPos, style, styleNext, lineCurrent := t.pos, t.style, t.styleNext, t.line;
    var levelCurrent, levelNext, foldPrev, foldCurrent := t.levelCurrent, t.levelNext, t.foldPrev, t.foldCurrent;
    var foldNext := FoldLineStateOf(LineStateAt(env, lineCurrent + 1));
    if levelNext < SC_FOLDLEVELBASE {
      levelNext := SC_FOLDLEVELBASE;
    }
    if foldCurrent.lineComment != 0 {
      levelNext := levelNext + foldNext.lineComment - foldPrev.lineComment;
    } else if foldCurrent.packageImport != 0 {
      levelNext := levelNext + foldNext.packageImport - foldPrev.packageImport;
    } else if t.visibleChars != 0 {
      var bracePos := BraceOnNextLine(env, lineCurrent);
      if bracePos != 0 {
        levelNext := levelNext + 1;
        startPos := bracePos + 1;
        style := OPERATOR;
        styleNext := StyleAt(env, startPos);
      }
    }
    var lev := PackLevel(levelCurrent, levelNext);
    var levels := t.levels[lineCurrent := lev];
    lineCurrent := lineCurrent + 1;
    var lineStartNext: nat := Min(LineStart(env.doc, lineCurrent + 1), env.endPos);
    levelCurrent := levelNext;
    foldPrev := foldCurrent;
    foldCurrent := foldNext;
    r := FoldScan(startPos, style, styleNext, lineCurrent, lineStartNext, levelCurrent, levelNext,
                  foldPrev, foldCurrent, 0, levels);
  }

  /** One iteration of the folder's loop. */
  method FoldChar(env: FoldEnv, s: FoldScan) returns (r: FoldScan)
    requires FoldInv(env, s) && s.pos < env.endPos
    ensures r == FoldStep(env, s)
  {
    var stylePrev := s.style;
    var style := s.styleNext;
    var startPos := s.pos + 1;
    var styleNext := StyleAt(env, startPos);
    var levelNext := s.levelNext + FoldDelta(stylePrev, style, styleNext, CharAt(env.doc, startPos - 1));
    var visibleChars := s.visibleChars;
    if visibleChars == 0 && !IsSpaceEquiv(style) {
      visibleChars := visibleChars + 1;
    }
    r := s.(pos := startPos, style := style, styleNext := styleNext, levelNext := levelNext, visibleChars := visibleChars);
    assert r == CountChar(env, s);
    if startPos == s.lineStartNext {
      r := EndOfLine(env, r);
    }
  }

  /** The set-up before the folder's loop: the level and fold bits of the previous
      line, and a brace at the head of the first line skipped. */
  method FoldStart(env: FoldEnv, levels0: map<nat, int>, startPos0: nat, initStyle: JavaStyle) returns (s: FoldScan)
    requires startPos0 <= env.endPos <= |env.doc|
    ensures s == FoldInit(env, levels0, startPos0, initStyle)
  {
    var startPos := startPos0;
    var lineCurrent := LineOf(env.doc, startPos);
    var foldPrev := FoldLineStateOf(0);
    var levelCurrent := SC_FOLDLEVELBASE;
    if lineCurrent > 0 {
      levelCurrent := LevelNextOf(LevelAt(levels0, lineCurrent - 1));
      foldPrev := FoldLineStateOf(LineStateAt(env, lineCurrent - 1));
      var bracePos := BraceOnNextLine(env, lineCurrent - 1);
      if bracePos != 0 {
        startPos := bracePos + 1;
      }
    }
    var foldCurrent := FoldLineStateOf(LineStateAt(env, lineCurrent));
    var lineStartNext: nat := Min(LineStart(env.doc, lineCurrent + 1), env.endPos);
    var styleNext := StyleAt(env, startPos);
    s := FoldScan(startPos, initStyle, styleNext, lineCurrent, lineStartNext, levelCurrent, levelCurrent,
                  foldPrev, foldCurrent, 0, levels0);
  }

  /** The folder, as the source writes it: a loop over the range that stores a
      level for each line it finishes. */
  method FoldJavaDoc(doc: seq<char>, styles: seq<JavaStyle>, lineStates: map<nat, int>,
                     levels0: map<nat, int>, startPos0: nat, lengthDoc: nat, initStyle: JavaStyle)
    returns (levels: map<nat, int>)
    requires startPos0 + lengthDoc <= |doc|
    ensures levels == FoldRun(FoldEnv(doc, styles, lineStates, startPos0 + lengthDoc),
                              FoldInit(FoldEnv(doc, styles, lineStates, startPos0 + lengthDoc), levels0,
                                       startPos0, initStyle)).levels
  {
    var env := FoldEnv(doc, styles, lineStates, startPos0 + lengthDoc);
    var s := FoldStart(env, levels0, startPos0, initStyle);
    ghost var init := s;
    while s.pos < env.endPos
      invariant FoldInv(env, s) && FoldRun(env, s) == FoldRun(env, init)
      decreases env.endPos - s.pos
    {
      s := FoldChar(env, s);
    }
    levels := s.levels;
  }

  // ---------------------------------------------------------------------------
  // Properties of the folder

  /** The number of operator-styled opening brackets in [i, j). */
  function Opens(env: FoldEnv, i: nat, j: nat): nat
    requires i <= j
    decreases j - i
  {
    if i == j then 0
    else (if IsOperatorStyle(StyleAt(env, i)) && IsOpenBracket(CharAt(env.doc, i)) then 1 else 0) + Opens(env, i + 1, j)
  }

  /** The number of operator-styled closing brackets in [i, j). */
  function Closes(env: FoldEnv, i: nat, j: nat): nat
    requires i <= j
    decreases j - i
  {
    if i == j then 0
    else (if IsOperatorStyle(StyleAt(env, i)) && IsCloseBracket(CharAt(env.doc, i)) then 1 else 0) + Closes(env, i + 1, j)
  }

  /** Within a line, n iterations add the level changes of the n characters they
      pass and store nothing. */
  lemma {:induction false} WithinLineLevel(env: FoldEnv, s: FoldScan, n: nat, j: nat)
    requires FoldInv(env, s) && s.style == StyleAt(env, s.pos as int - 1)
    requires j == s.pos + n && j < s.lineStartNext
    ensures FoldSteps(env, s, n).pos == j
    ensures FoldSteps(env, s, n).levelNext == s.levelNext + SumDelta(env, s.pos, j)
    ensures FoldSteps(env, s, n).line == s.line && FoldSteps(env, s, n).levelCurrent == s.levelCurrent
    ensures FoldSteps(env, s, n).levels == s.levels
    decreases n
  {
    if n > 0 {
      StepWithinLine(env, s);
      var t := CountChar(env, s);
      WithinLineLevel(env, t, n - 1, j);
      assert FoldSteps(env, s, n) == FoldSteps(env, t, n - 1);
      assert SumDelta(env, s.pos, j) == SumDelta(env, s.pos, s.pos + 1) + SumDelta(env, t.pos, j);
    }
  }

  /** Inside a line an iteration only counts its character. */
  lemma StepWithinLine(env: FoldEnv, s: FoldScan)
    requires FoldInv(env, s) && s.pos < env.endPos && s.pos + 1 != s.lineStartNext
    requires s.style == StyleAt(env, s.pos as int - 1)
    ensures FoldStep(env, s) == CountChar(env, s)
    ensures CountChar(env, s).pos == s.pos + 1 && CountChar(env, s).style == StyleAt(env, s.pos)
    ensures CountChar(env, s).levelNext == s.levelNext + SumDelta(env, s.pos, s.pos + 1)
    ensures CountChar(env, s).line == s.line && CountChar(env, s).levels == s.levels
  {
  }

  /** The rest of a span, entered from inside it, closes it once. */
  lemma {:induction false} SpanTail(env: FoldEnv, i: nat, j: nat, c: JavaStyle)
    requires 0 < i < j && IsFoldSpanStyle(c)
    requires forall k :: i - 1 <= k < j ==> StyleAt(env, k) == c
    requires StyleAt(env, j) != c
    ensures SumDelta(env, i, j) == -1
    decreases j - i
  {
    assert StyleAt(env, i as int - 1) == c && StyleAt(env, i) == c;
    if i + 1 < j {
      assert StyleAt(env, i + 1) == c;
      SpanTail(env, i + 1, j, c);
    }
  }

  /** A block comment, doc comment, text block or triple template that starts
      and ends within one line leaves the level where it was. */
  lemma {:induction false} SpanNetsZero(env: FoldEnv, i: nat, j: nat, c: JavaStyle)
    requires i < j && IsFoldSpanStyle(c)
    requires forall k :: i <= k < j ==> StyleAt(env, k) == c
    requires StyleAt(env, i as int - 1) != c && StyleAt(env, j) != c
    ensures SumDelta(env, i, j) == 0
  {
    assert StyleAt(env, i) == c;
    if i + 1 < j {
      assert StyleAt(env, i + 1) == c;
      SpanTail(env, i + 1, j, c);
    }
  }

  /** Outside multi-line spans the level follows the brackets: one up for each
      opening bracket styled as an operator, one down for each closing one. */
  lemma {:induction false} BracketBalance(env: FoldEnv, i: nat, j: nat)
    requires i <= j
    requires forall k :: i <= k < j ==> !IsFoldSpanStyle(StyleAt(env, k))
    ensures SumDelta(env, i, j) == Opens(env, i, j) - Closes(env, i, j)
    decreases j - i
  {
    if i < j {
      assert !IsFoldSpanStyle(StyleAt(env, i));
      BracketBalance(env, i + 1, j);
    }
  }

  /** At a line end an iteration counts the last character, then runs the line-end block. */
  lemma StepAtLineEnd(env: FoldEnv, s: FoldScan)
    requires FoldInv(env, s) && s.pos < env.endPos && s.pos + 1 == s.lineStartNext
    ensures FoldStep(env, s) == LineEnd(env, CountChar(env, s))
    ensures CountChar(env, s).line == s.line && CountChar(env, s).levels == s.levels
    ensures CountChar(env, s).levelCurrent == s.levelCurrent && CountChar(env, s).pos == s.pos + 1
    ensures CountChar(env, s).foldPrev == s.foldPrev && CountChar(env, s).foldCurrent == s.foldCurrent
  {
  }

  /** A `{` alone at the head of the next line belongs to this line's fold. */
  predicate BraceJoins(env: FoldEnv, t: FoldScan)
  {
    t.foldCurrent.lineComment == 0 && t.foldCurrent.packageImport == 0
    && t.visibleChars != 0 && BraceOnNextLine(env, t.line) != 0
  }

  /** The line-end block stores `PackLevel(current, next)` for the line and nothing
      else, and moves to the next line with `next` as its level and the line's
      fold bits as the previous ones. */
  lemma LineEndStores(env: FoldEnv, t: FoldScan)
    requires env.endPos <= |env.doc|
    ensures LineEnd(env, t).line == t.line + 1
    ensures LineEnd(env, t).levels == t.levels[t.line := PackLevel(t.levelCurrent, LineEnd(env, t).levelCurrent)]
    ensures LineEnd(env, t).levelNext == LineEnd(env, t).levelCurrent
    ensures LineEnd(env, t).foldPrev == t.foldCurrent
    ensures LineEnd(env, t).foldCurrent == FoldLineStateOf(LineStateAt(env, t.line + 1))
    ensures LineEnd(env, t).visibleChars == 0
  {
  }

  /** The next level is at least the base, less one only when a comment or an
      import block closes; a joining brace raises it above the base. */
  lemma LineEndClamp(env: FoldEnv, t: FoldScan)
    requires env.endPos <= |env.doc| && IsFoldBits(t.foldPrev)
    ensures LineEnd(env, t).levelCurrent >= SC_FOLDLEVELBASE - 1
    ensures t.foldCurrent.lineComment == 0 && t.foldCurrent.packageImport == 0 ==>
              LineEnd(env, t).levelCurrent >= SC_FOLDLEVELBASE
    ensures BraceJoins(env, t) ==> LineEnd(env, t).levelCurrent >= SC_FOLDLEVELBASE + 1
  {
  }

  /** A joining brace is skipped and the scan resumes after it as an operator;
      otherwise the scan resumes where it was. */
  lemma LineEndBrace(env: FoldEnv, t: FoldScan)
    requires env.endPos <= |env.doc|
    ensures BraceJoins(env, t) ==> LineEnd(env, t).pos == BraceOnNextLine(env, t.line) + 1
                                   && LineEnd(env, t).style == OPERATOR
    ensures !BraceJoins(env, t) ==> LineEnd(env, t).pos == t.pos && LineEnd(env, t).style == t.style
  {
  }

  /** For levels below the header bit, the stored word is a header exactly when
      the level rises, and its upper half is the next line's level. */
  lemma HeaderIffRises(env: FoldEnv, t: FoldScan)
    requires env.endPos <= |env.doc| && 0 <= t.levelCurrent < SC_FOLDLEVELHEADERFLAG
    ensures t.line in LineEnd(env, t).levels
    ensures IsHeader(LineEnd(env, t).levels[t.line]) <==> t.levelCurrent < LineEnd(env, t).levelCurrent
    ensures LevelNextOf(LineEnd(env, t).levels[t.line]) == LineEnd(env, t).levelCurrent
  {
    LineEndStores(env, t);
    PackLevelDecode(t.levelCurrent, LineEnd(env, t).levelCurrent);
  }

  /** A restart on a later line resumes with the level the previous line stored
      as its next level. */
  lemma RestartReadsStoredLevel(env: FoldEnv, levels: map<nat, int>, startPos: nat, initStyle: JavaStyle,
                                cur: int, next: int)
    requires startPos <= env.endPos <= |env.doc| && LineOf(env.doc, startPos) > 0
    requires 0 <= cur < SC_FOLDLEVELHEADERFLAG
    requires LineOf(env.doc, startPos) - 1 in levels && levels[LineOf(env.doc, startPos) - 1] == PackLevel(cur, next)
    ensures FoldInit(env, levels, startPos, initStyle).levelCurrent == next
    ensures FoldInit(env, levels, startPos, initStyle).levelNext == next
  {
    PackLevelDecode(cur, next);
  }

  /** An iteration stores at most the level of its own line, and stores it when it
      finishes the line. */
  lemma StepStores(env: FoldEnv, s: FoldScan)
    requires FoldInv(env, s) && s.pos < env.endPos
    ensures FoldStep(env, s).line == s.line || FoldStep(env, s).line == s.line + 1
    ensures forall l :: l != s.line ==> (l in FoldStep(env, s).levels <==> l in s.levels)
    ensures forall l :: l != s.line && l in s.levels ==> FoldStep(env, s).levels[l] == s.levels[l]
    ensures FoldStep(env, s).line == s.line + 1 ==> s.line in FoldStep(env, s).levels
  {
    if s.pos + 1 == s.lineStartNext {
      StepAtLineEnd(env, s);
      LineEndStores(env, CountChar(env, s));
    }
  }

  /** The run leaves the lines before its first one as they were. */
  lemma {:induction false} RunKeepsEarlierLines(env: FoldEnv, s: FoldScan, l: nat)
    requires FoldInv(env, s) && l < s.line
    ensures l in FoldRun(env, s).levels <==> l in s.levels
    ensures l in s.levels ==> FoldRun(env, s).levels[l] == s.levels[l]
    decreases env.endPos - s.pos
  {
    if s.pos < env.endPos {
      StepStores(env, s);
      RunKeepsEarlierLines(env, FoldStep(env, s), l);
    }
  }

  /** The run stores a level for every line it finishes. */
  lemma {:induction false} RunStoresFinishedLines(env: FoldEnv, s: FoldScan, l: nat)
    requires FoldInv(env, s) && s.line <= l < FoldRun(env, s).line
    ensures l in FoldRun(env, s).levels
    decreases env.endPos - s.pos
  {
    assert s.pos < env.endPos;
    var t := FoldStep(env, s);
    StepStores(env, s);
    if l < t.line {
      RunKeepsEarlierLines(env, t, l);
    } else {
      RunStoresFinishedLines(env, t, l);
    }
  }
}
