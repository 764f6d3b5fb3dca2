/** The Vim folder (LexVim.cxx, FoldVimDoc): it reads the style stream back,
    raises the level after `if`, `while`, `for`, `try`, `def` and `fun...` words
    and lowers it after `end...` words, folds runs of comment lines and of
    continuation lines by their line-state bits, and stores
    `current | next << 16 | header` for a line only when that word differs from
    the one already stored.

    The document's styles and line states are inputs (what the colouriser left
    behind); the levels already stored are an input map.  The result is that
    map with the lines the folder passes brought up to date, and the list of
    lines it actually wrote, in order. */
module VimFold {
  import opened CharClass
  import opened StyleContext
  import opened VimStyles
  import opened FoldLevel

  /** What the folder reads: the text, its styles, the per-line states, and the end of the range. */
  datatype FoldEnv = FoldEnv(doc: seq<char>, styles: seq<VimStyle>, lineStates: map<nat, int>, endPos: nat)

  /** The folder's loop variables.  `styleNext` is the style at `pos`, and `word`
      holds what the `buf` buffer holds: the first characters of the WORD run
      being read. */
  datatype FoldScan = FoldScan(pos: nat, styleNext: VimStyle, line: nat, lineStartNext: nat,
                               levelCurrent: int, levelNext: int, foldPrev: FoldLineState,
                               foldCurrent: FoldLineState, word: seq<char>,
                               levels: map<nat, int>, writes: seq<nat>)

  /** `buf` has eight bytes, one of them for the terminating NUL. */
  const MaxFoldWordLength: nat := 7

  /** A style lookup past the styled text reads the default style. */
  function StyleAt(env: FoldEnv, i: int): VimStyle
  {
    if 0 <= i < |env.styles| then env.styles[i] else DEFAULT
  }

  /** A line without a stored state reads 0. */
  function LineStateAt(env: FoldEnv, line: nat): int
  {
    if line in env.lineStates then env.lineStates[line] else 0
  }

  /** A line without a stored level has the base level. */
  function LevelAt(levels: map<nat, int>, line: nat): int
  {
    if line in levels then levels[line] else SC_FOLDLEVELBASE
  }

  predicate StartsWith(w: seq<char>, prefix: seq<char>) { prefix <= w }

  /** The words that open a fold. */
  predicate IsFoldOpenWord(w: seq<char>)
  {
    w == "if" || w == "while" || w == "for" || w == "try" || w == "def" || StartsWith(w, "fun")
  }

  /** The level change a keyword (as kept in the buffer) makes. */
  function FoldWordDelta(w: seq<char>): int
  {
    if IsFoldOpenWord(w) then 1
    else if StartsWith(w, "end") then -1
    else 0
  }

  /** A WORD character goes into the buffer while there is room for it. */
  function KeepChar(word: seq<char>, ch: char): seq<char>
  {
    if |word| < MaxFoldWordLength then word + [ch] else word
  }

  /** The change in level at a line end: a comment line shifts it by the change
      in the comment bit from the line before to the line after, and every line
      by the change in the continuation bit from this line to the next. */
  function LineShift(prev: FoldLineState, cur: FoldLineState, next: FoldLineState): int
  {
    (if cur.lineComment != 0 then next.lineComment - prev.lineComment else 0)
    + (next.lineContinuation - cur.lineContinuation)
  }

  /** The invariant of the loop: the end of the line is the start of the next one
      (or the end of the range), `styleNext` is the style at `pos`, and the buffer
      is not over-full. */
  ghost predicate FoldInv(env: FoldEnv, s: FoldScan)
  {
    env.endPos <= |env.doc|
    && s.lineStartNext == Min(LineStart(env.doc, s.line + 1), env.endPos)
    && s.styleNext == StyleAt(env, s.pos)
    && |s.word| <= MaxFoldWordLength
  }

  /** The state before the loop, for a range starting at startPos: a later line
      resumes with the level the line before it stored as its next level. */
  function FoldInit(env: FoldEnv, levels: map<nat, int>, startPos: nat): (s: FoldScan)
    requires startPos <= env.endPos <= |env.doc|
    ensures FoldInv(env, s) && s.line == LineOf(env.doc, startPos) && s.pos == startPos
    ensures s.levels == levels && s.writes == [] && s.word == []
  {
    var line := LineOf(env.doc, startPos);
    var levelCurrent := if line > 0 then LevelNextOf(LevelAt(levels, line - 1)) else SC_FOLDLEVELBASE;
    var foldPrev := if line > 0 then FoldLineStateOf(LineStateAt(env, line - 1)) else FoldLineStateOf(0);
    FoldScan(startPos, StyleAt(env, startPos), line, Min(LineStart(env.doc, line + 1), env.endPos),
             levelCurrent, levelCurrent, foldPrev, FoldLineStateOf(LineStateAt(env, line)), [], levels, [])
  }

  /** The first half of an iteration: the character at `pos` is read, and a WORD
      run that ends with it is looked up. */
  function CountChar(env: FoldEnv, s: FoldScan): FoldScan
  {
    var style := s.styleNext;
    var p := s.pos + 1;
    var next := StyleAt(env, p);
    if style == WORD then
      var word := KeepChar(s.word, CharAt(env.doc, p - 1));
      if next != WORD then s.(pos := p, styleNext := next, word := [], levelNext := s.levelNext + FoldWordDelta(word))
      else s.(pos := p, styleNext := next, word := word)
    else s.(pos := p, styleNext := next)
  }

  /** The end of a line: the comment and continuation shifts, the stored level
      (written only when it changes), and the move to the next line. */
  function LineEnd(env: FoldEnv, t: FoldScan): FoldScan
  {
    var foldNext := FoldLineStateOf(LineStateAt(env, t.line + 1));
    var levelNext := t.levelNext + LineShift(t.foldPrev, t.foldCurrent, foldNext);
    var lev := PackLevel(t.levelCurrent, levelNext);
    var write := lev != LevelAt(t.levels, t.line);
    t.(line := t.line + 1, lineStartNext := Min(LineStart(env.doc, t.line + 2), env.endPos),
       levelCurrent := levelNext, levelNext := levelNext, foldPrev := t.foldCurrent, foldCurrent := foldNext,
       levels := if write then t.levels[t.line := lev] else t.levels,
       writes := if write then t.writes + [t.line] else t.writes)
  }

  /** One iteration of the loop. */
  function FoldStep(env: FoldEnv, s: FoldScan): (r: FoldScan)
    requires FoldInv(env, s) && s.pos < env.endPos
    ensures FoldInv(env, r) && r.pos == s.pos + 1
  {
    var t := CountChar(env, s);
    if t.pos == s.lineStartNext then LineEnd(env, t) else t
  }

  /** The loop, run to the end of the range. */
  function FoldRun(env: FoldEnv, s: FoldScan): (r: FoldScan)
    requires FoldInv(env, s)
    ensures r.line >= s.line
    decreases env.endPos - s.pos
  {
    if s.pos < env.endPos then FoldRun(env, FoldStep(env, s)) else s
  }

  /** n iterations within the range. */
  function FoldSteps(env: FoldEnv, s: FoldScan, n: nat): (r: FoldScan)
    requires FoldInv(env, s)
    ensures FoldInv(env, r)
    decreases n
  {
    if n == 0 || s.pos >= env.endPos then s else FoldSteps(env, FoldStep(env, s), n - 1)
  }

  /** The first half of the loop's body: the character's style is read, a WORD
      character goes into the buffer while there is room, and at the end of a
      WORD run the buffered word moves the level and the buffer empties. */
  method ReadChar(env: FoldEnv, s: FoldScan, buf: array<char>, wordLen: nat) returns (r: FoldScan, len: nat)
    requires buf.Length == MaxFoldWordLength + 1
    requires wordLen == |s.word| <= MaxFoldWordLength && buf[..wordLen] == s.word
    modifies buf
    ensures r == CountChar(env, s)
    ensures len == |r.word| <= MaxFoldWordLength && buf[..len] == r.word
  {
    var startPos, levelNext := s.pos, s.levelNext;
    len := wordLen;
    var style := s.styleNext;
    startPos := startPos + 1;
    var styleNext := StyleAt(env, startPos);
    if style == WORD {
      if len < MaxFoldWordLength {
        buf[len] := CharAt(env.doc, startPos - 1);
        len := len + 1;
      }
      assert buf[..len] == KeepChar(s.word, CharAt(env.doc, startPos - 1));
      if styleNext != WORD {
        levelNext := levelNext + FoldWordDelta(buf[..len]);
        len := 0;
      }
    }
    r := s.(pos := startPos, styleNext := styleNext, levelNext := levelNext, word := buf[..len]);
  }

  /** The end-of-line block of the folder's loop: the comment and continuation
      shifts, the level word, a write only when it differs from the stored one,
      and the move to the next line. */
  method EndOfLine(env: FoldEnv, t: FoldScan) returns (r: FoldScan)
    ensures r == LineEnd(env, t)
  {
    var lineCurrent, levelCurrent, levelNext := t.line, t.levelCurrent, t.levelNext;
    var foldPrev, foldCurrent, levels, writes := t.foldPrev, t.foldCurrent, t.levels, t.writes;
    var foldNext := FoldLineStateOf(LineStateAt(env, lineCurrent + 1));
    if foldCurrent.lineComment != 0 {
      levelNext := levelNext + foldNext.lineComment - foldPrev.lineComment;
    }
    levelNext := levelNext + foldNext.lineContinuation - foldCurrent.lineContinuation;
    var lev := PackLevel(levelCurrent, levelNext);
    if lev != LevelAt(levels, lineCurrent) {
      levels := levels[lineCurrent := lev];
      writes := writes + [lineCurrent];
    }
    lineCurrent := lineCurrent + 1;
    var lineStartNext := Min(LineStart(env.doc, lineCurrent + 1), env.endPos);
    levelCurrent := levelNext;
    foldPrev := foldCurrent;
    foldCurrent := foldNext;
    r := t.(line := lineCurrent, lineStartNext := lineStartNext, levelCurrent := levelCurrent, levelNext := levelNext,
            foldPrev := foldPrev, foldCurrent := foldCurrent, levels := levels, writes := writes);
  }

  /** The folder as the source writes it: the level and fold bits of the line
      before the range, then one loop that reads the styles, fills the word
      buffer, and stores a level for each line it finishes. */
  method FoldVimDoc(doc: seq<char>, styles: seq<VimStyle>, lineStates: map<nat, int>,
                    levels0: map<nat, int>, startPos0: nat, lengthDoc: nat)
    returns (levels: map<nat, int>, writes: seq<nat>)
    requires startPos0 + lengthDoc <= |doc|
    ensures levels == FoldRun(FoldEnv(doc, styles, lineStates, startPos0 + lengthDoc),
                              FoldInit(FoldEnv(doc, styles, lineStates, startPos0 + lengthDoc), levels0, startPos0)).levels
    ensures writes == FoldRun(FoldEnv(doc, styles, lineStates, startPos0 + lengthDoc),
                              FoldInit(FoldEnv(doc, styles, lineStates, startPos0 + lengthDoc), levels0, startPos0)).writes
  {
    var env := FoldEnv(doc, styles, lineStates, startPos0 + lengthDoc);
    var lineCurrent := LineOf(doc, startPos0);
    var foldPrev := FoldLineStateOf(0);
    var levelCurrent := SC_FOLDLEVELBASE;
    if lineCurrent > 0 {
      levelCurrent := LevelNextOf(LevelAt(levels0, lineCurrent - 1));
      foldPrev := FoldLineStateOf(LineStateAt(env, lineCurrent - 1));
    }
    var foldCurrent := FoldLineStateOf(LineStateAt(env, lineCurrent));
    var lineStartNext: nat := Min(LineStart(doc, lineCurrent + 1), env.endPos);
    var buf := new char[MaxFoldWordLength + 1];
    var wordLen: nat := 0;
    var s := FoldScan(startPos0, StyleAt(env, startPos0), lineCurrent, lineStartNext, levelCurrent, levelCurrent,
                      foldPrev, foldCurrent, buf[..wordLen], levels0, []);
    ghost var init := s;
    assert init == FoldInit(env, levels0, startPos0);
    while s.pos < env.endPos
      invariant wordLen == |s.word| <= MaxFoldWordLength && buf[..wordLen] == s.word
      invariant FoldInv(env, s) && FoldRun(env, s) == FoldRun(env, init)
      decreases env.endPos - s.pos
    {
      var t;
      t, wordLen := ReadChar(env, s, buf, wordLen);
      if t.pos == s.lineStartNext {
        t := EndOfLine(env, t);
      }
      s := t;
    }
    levels, writes := s.levels, s.writes;
  }

  // ---------------------------------------------------------------------------
  // Fold words

  /** The three ways an iteration reads its character: outside a WORD run, inside
      one, and at its last character, where the kept word is looked up. */
  lemma CountCharCases(env: FoldEnv, b: FoldScan)
    ensures b.styleNext != WORD ==> CountChar(env, b) == b.(pos := b.pos + 1, styleNext := StyleAt(env, b.pos + 1))
    ensures b.styleNext == WORD && StyleAt(env, b.pos + 1) == WORD ==>
              CountChar(env, b) == b.(pos := b.pos + 1, styleNext := WORD, word := KeepChar(b.word, CharAt(env.doc, b.pos)))
    ensures b.styleNext == WORD && StyleAt(env, b.pos + 1) != WORD ==>
              CountChar(env, b) == b.(pos := b.pos + 1, styleNext := StyleAt(env, b.pos + 1), word := [],
                                      levelNext := b.levelNext + FoldWordDelta(KeepChar(b.word, CharAt(env.doc, b.pos))))
  {
  }

  /** The table of fold words: `if`, `while`, `for`, `try`, `def` and anything
      starting with `fun` raise the level, anything starting with `end` lowers
      it, and every other word leaves it alone. */
  lemma FoldWordTable(w: seq<char>)
    ensures FoldWordDelta(w) == 1 <==> IsFoldOpenWord(w)
    ensures FoldWordDelta(w) == -1 <==> StartsWith(w, "end")
    ensures FoldWordDelta(w) == 0 <==> !IsFoldOpenWord(w) && !StartsWith(w, "end")
  {
    if StartsWith(w, "end") {
      assert w[0] == 'e';
      assert !StartsWith(w, "fun");
    }
  }

  /** Keeping only the first seven characters never changes the verdict: the
      whole words are shorter than that, and the prefixes are three long. */
  lemma {:induction false} TruncationKeepsDelta(w: seq<char>)
    ensures FoldWordDelta(w[..Min(|w|, MaxFoldWordLength)]) == FoldWordDelta(w)
  {
    if |w| > MaxFoldWordLength {
      var t := w[..MaxFoldWordLength];
      assert |t| == 7;
      assert t[..3] == w[..3];
      assert StartsWith(t, "fun") <==> t[..3] == "fun";
      assert StartsWith(w, "fun") <==> w[..3] == "fun";
      assert StartsWith(t, "end") <==> t[..3] == "end";
      assert StartsWith(w, "end") <==> w[..3] == "end";
    } else {
      assert w[..|w|] == w;
    }
  }

  /** Adding the n-th character of a word to the buffer that holds its first
      min(n, 7) characters gives the buffer for its first n + 1 characters. */
  lemma KeepCharPrefix(w: seq<char>, n: nat)
    requires n < |w|
    ensures KeepChar(w[..Min(n, MaxFoldWordLength)], w[n]) == w[..Min(n + 1, MaxFoldWordLength)]
  {
    if n < MaxFoldWordLength {
      assert w[..n] + [w[n]] == w[..n + 1];
    }
  }

  /** Reading the WORD run [i, j) from position p on, with the buffer holding the
      first characters of doc[i..p], moves the level by the run's word (as the
      buffer keeps it) and empties the buffer; nothing else changes. */
  lemma {:induction false} WordRunFrom(env: FoldEnv, s: FoldScan, i: nat, j: nat)
    requires FoldInv(env, s) && i <= s.pos < j < s.lineStartNext
    requires forall p :: i <= p < j ==> StyleAt(env, p) == WORD
    requires StyleAt(env, j) != WORD
    requires s.word == env.doc[i..j][..Min(s.pos - i, MaxFoldWordLength)]
    ensures FoldSteps(env, s, j - s.pos).pos == j
    ensures FoldSteps(env, s, j - s.pos).levelNext
            == s.levelNext + FoldWordDelta(env.doc[i..j][..Min(j - i, MaxFoldWordLength)])
    ensures FoldSteps(env, s, j - s.pos).word == []
    ensures FoldSteps(env, s, j - s.pos).line == s.line && FoldSteps(env, s, j - s.pos).levels == s.levels
    ensures FoldSteps(env, s, j - s.pos).levelCurrent == s.levelCurrent
    decreases j - s.pos
  {
    var w := env.doc[i..j];
    var n := s.pos - i;
    assert s.styleNext == WORD;
    assert CharAt(env.doc, s.pos) == w[n];
    KeepCharPrefix(w, n);
    CountCharCases(env, s);
    var t := FoldStep(env, s);
    assert t == CountChar(env, s);
    assert FoldSteps(env, s, j - s.pos) == FoldSteps(env, t, j - t.pos);
    if s.pos + 1 < j {
      assert StyleAt(env, s.pos + 1) == WORD;
      WordRunFrom(env, t, i, j);
    }
  }

  /** A WORD run that lies inside a line moves the level by the word's fold
      delta (the whole word's: the truncated buffer gives the same verdict),
      and the line, its starting level and the stored levels stay as they were. */
  lemma WordRunLevel(env: FoldEnv, s: FoldScan, j: nat)
    requires FoldInv(env, s) && s.word == [] && s.pos < j < s.lineStartNext
    requires forall p :: s.pos <= p < j ==> StyleAt(env, p) == WORD
    requires StyleAt(env, j) != WORD
    ensures FoldSteps(env, s, j - s.pos).pos == j
    ensures FoldSteps(env, s, j - s.pos).levelNext == s.levelNext + FoldWordDelta(env.doc[s.pos..j])
    ensures FoldSteps(env, s, j - s.pos).word == [] && FoldSteps(env, s, j - s.pos).line == s.line
    ensures FoldSteps(env, s, j - s.pos).levels == s.levels
  {
    WordRunFrom(env, s, s.pos, j);
    TruncationKeepsDelta(env.doc[s.pos..j]);
  }

  // ---------------------------------------------------------------------------
  // Line ends

  /** The line-end block moves the level by the line's shift, stores
      `PackLevel(current, next)` for the line (writing it, and logging the
      write, exactly when it differs from the stored word), leaves every other
      line alone, and goes on with the next line's fold bits. */
  lemma LineEndStores(env: FoldEnv, t: FoldScan)
    ensures LineEnd(env, t).line == t.line + 1
    ensures LineEnd(env, t).levelCurrent == LineEnd(env, t).levelNext
            == t.levelNext + LineShift(t.foldPrev, t.foldCurrent, FoldLineStateOf(LineStateAt(env, t.line + 1)))
    ensures LevelAt(LineEnd(env, t).levels, t.line) == PackLevel(t.levelCurrent, LineEnd(env, t).levelCurrent)
    ensures forall l :: l != t.line ==> LevelAt(LineEnd(env, t).levels, l) == LevelAt(t.levels, l)
    ensures PackLevel(t.levelCurrent, LineEnd(env, t).levelCurrent) != LevelAt(t.levels, t.line) ==>
              LineEnd(env, t).writes == t.writes + [t.line]
    ensures PackLevel(t.levelCurrent, LineEnd(env, t).levelCurrent) == LevelAt(t.levels, t.line) ==>
              LineEnd(env, t).writes == t.writes && LineEnd(env, t).levels == t.levels
    ensures LineEnd(env, t).foldPrev == t.foldCurrent
    ensures LineEnd(env, t).foldCurrent == FoldLineStateOf(LineStateAt(env, t.line + 1))
  {
  }

  /** For levels below the header bit, the stored word is a header exactly when
      the level rises, and its upper half is the next line's level. */
  lemma HeaderIffRises(env: FoldEnv, t: FoldScan)
    requires 0 <= t.levelCurrent < SC_FOLDLEVELHEADERFLAG
    ensures IsHeader(LevelAt(LineEnd(env, t).levels, t.line)) <==> t.levelCurrent < LineEnd(env, t).levelCurrent
    ensures LevelNextOf(LevelAt(LineEnd(env, t).levels, t.line)) == LineEnd(env, t).levelCurrent
    ensures LevelAt(LineEnd(env, t).levels, t.line) % SC_FOLDLEVELHEADERFLAG == t.levelCurrent
  {
    LineEndStores(env, t);
    PackLevelDecode(t.levelCurrent, LineEnd(env, t).levelCurrent);
  }

  /** A restart on a later line resumes with the level the previous line stored
      as its next level, and with that line's fold bits as the previous ones. */
  lemma RestartReadsStoredLevel(env: FoldEnv, levels: map<nat, int>, startPos: nat, cur: int, next: int)
    requires startPos <= env.endPos <= |env.doc| && LineOf(env.doc, startPos) > 0
    requires 0 <= cur < SC_FOLDLEVELHEADERFLAG
    requires LevelAt(levels, LineOf(env.doc, startPos) - 1) == PackLevel(cur, next)
    ensures FoldInit(env, levels, startPos).levelCurrent == next
    ensures FoldInit(env, levels, startPos).levelNext == next
    ensures FoldInit(env, levels, startPos).foldPrev == FoldLineStateOf(LineStateAt(env, LineOf(env.doc, startPos) - 1))
  {
    PackLevelDecode(cur, next);
  }

  // ---------------------------------------------------------------------------
  // Comment and continuation runs

  /** The total shift of the line ends of lines [a, b), where fs[k] holds the
      fold bits of line k. */
  function ShiftSum(fs: seq<FoldLineState>, a: nat, b: nat): int
    requires 1 <= a <= b < |fs|
    decreases b - a
  {
    if a == b then 0 else LineShift(fs[a - 1], fs[a], fs[a + 1]) + ShiftSum(fs, a + 1, b)
  }

  /** Over a run of comment lines the comment shifts telescope: what is left is
      the comment bits around the run's two ends and the change in the
      continuation bit across it. */
  lemma {:induction false} CommentRunShift(fs: seq<FoldLineState>, a: nat, b: nat)
    requires 1 <= a < b < |fs|
    requires forall k :: a <= k < b ==> fs[k].lineComment == 1
    ensures ShiftSum(fs, a, b) == fs[b].lineComment + fs[b - 1].lineComment - fs[a].lineComment - fs[a - 1].lineComment
                                  + fs[b].lineContinuation - fs[a].lineContinuation
    decreases b - a
  {
    assert fs[a].lineComment == 1;
    if a + 1 < b {
      CommentRunShift(fs, a + 1, b);
    }
  }

  /** Over lines that are not comment lines only the continuation bit counts,
      and its shifts telescope to its change across the lines. */
  lemma {:induction false} CodeRunShift(fs: seq<FoldLineState>, a: nat, b: nat)
    requires 1 <= a <= b < |fs|
    requires forall k :: a <= k < b ==> fs[k].lineComment == 0
    ensures ShiftSum(fs, a, b) == fs[b].lineContinuation - fs[a].lineContinuation
    decreases b - a
  {
    if a < b {
      assert fs[a].lineComment == 0;
      CodeRunShift(fs, a + 1, b);
    }
  }

  /** A block of comment lines [a, b) between two lines that are not comments,
      with no continuations around, leaves the level where it was; a block of
      two or more lines is raised after its first line (so that line is the
      fold's header), and a single comment line does not fold. */
  lemma CommentBlockFolds(fs: seq<FoldLineState>, a: nat, b: nat)
    requires 1 <= a < b < |fs|
    requires fs[a - 1].lineComment == 0 && fs[b].lineComment == 0
    requires forall k :: a <= k < b ==> fs[k].lineComment == 1
    requires forall k :: a - 1 <= k <= b ==> fs[k].lineContinuation == 0
    ensures ShiftSum(fs, a, b) == 0
    ensures b - a >= 2 ==> LineShift(fs[a - 1], fs[a], fs[a + 1]) == 1
    ensures b - a == 1 ==> LineShift(fs[a - 1], fs[a], fs[a + 1]) == 0
  {
    CommentRunShift(fs, a, b);
    assert fs[a].lineComment == 1 && fs[b - 1].lineComment == 1;
    assert fs[a].lineContinuation == 0 && fs[b].lineContinuation == 0;
    assert fs[a + 1].lineContinuation == 0;
    if b - a >= 2 {
      assert fs[a + 1].lineComment == 1;
    }
  }

  /** Continuation lines [a + 1, b) after a line a that they continue: the level
      rises after line a (the header) and is back where it was after line b - 1. */
  lemma ContinuationBlockFolds(fs: seq<FoldLineState>, a: nat, b: nat)
    requires 1 <= a && a + 1 < b < |fs|
    requires forall k :: a <= k < b ==> fs[k].lineComment == 0
    requires fs[a].lineContinuation == 0 && fs[b].lineContinuation == 0
    requires forall k :: a < k < b ==> fs[k].lineContinuation == 1
    ensures LineShift(fs[a - 1], fs[a], fs[a + 1]) == 1
    ensures LineShift(fs[b - 2], fs[b - 1], fs[b]) == -1
    ensures ShiftSum(fs, a, b) == 0
  {
    CodeRunShift(fs, a, b);
    assert fs[a + 1].lineContinuation == 1 && fs[b - 1].lineContinuation == 1;
    assert fs[a].lineComment == 0 && fs[b - 1].lineComment == 0;
  }

  // ---------------------------------------------------------------------------
  // Re-running the folder

  /** An iteration changes the stored level of its own line at most. */
  lemma StepStores(env: FoldEnv, s: FoldScan)
    requires FoldInv(env, s) && s.pos < env.endPos
    ensures FoldStep(env, s).line == s.line || FoldStep(env, s).line == s.line + 1
    ensures forall l :: l != s.line ==> LevelAt(FoldStep(env, s).levels, l) == LevelAt(s.levels, l)
    ensures FoldStep(env, s).line == s.line ==>
              FoldStep(env, s).levels == s.levels && FoldStep(env, s).writes == s.writes
    ensures FoldStep(env, s).line == s.line + 1 ==>
              LevelAt(FoldStep(env, s).levels, s.line) == PackLevel(s.levelCurrent, FoldStep(env, s).levelCurrent)
  {
    var t := CountChar(env, s);
    if t.pos == s.lineStartNext {
      LineEndStores(env, t);
    }
  }

  /** The run leaves the stored levels of the lines before its first one alone. */
  lemma {:induction false} RunKeepsEarlierLines(env: FoldEnv, s: FoldScan, l: nat)
    requires FoldInv(env, s) && l < s.line
    ensures LevelAt(FoldRun(env, s).levels, l) == LevelAt(s.levels, l)
    decreases env.endPos - s.pos
  {
    if s.pos < env.endPos {
      StepStores(env, s);
      RunKeepsEarlierLines(env, FoldStep(env, s), l);
    }
  }

  /** Two scans that differ only in the stored levels and the write log. */
  predicate Twins(s1: FoldScan, s2: FoldScan)
  {
    s2 == s1.(levels := s2.levels, writes := s2.writes)
  }

  /** What an iteration computes does not depend on the stored levels. */
  lemma StepTwins(env: FoldEnv, s1: FoldScan, s2: FoldScan)
    requires FoldInv(env, s1) && s1.pos < env.endPos && Twins(s1, s2)
    ensures FoldInv(env, s2) && Twins(FoldStep(env, s1), FoldStep(env, s2))
  {
  }

  /** A scan over levels that already hold what a twin scan will store for the
      lines still ahead writes nothing and changes nothing. */
  lemma {:induction false} RerunKeeps(env: FoldEnv, s1: FoldScan, s2: FoldScan)
    requires FoldInv(env, s1) && Twins(s1, s2)
    requires forall l :: s1.line <= l < FoldRun(env, s1).line ==>
               LevelAt(s2.levels, l) == LevelAt(FoldRun(env, s1).levels, l)
    ensures FoldInv(env, s2)
    ensures FoldRun(env, s2).levels == s2.levels && FoldRun(env, s2).writes == s2.writes
    decreases env.endPos - s1.pos
  {
    assert FoldInv(env, s2);
    if s1.pos < env.endPos {
      var t1, t2 := FoldStep(env, s1), FoldStep(env, s2);
      StepTwins(env, s1, s2);
      StepStores(env, s1);
      StepStores(env, s2);
      assert FoldRun(env, s1) == FoldRun(env, t1);
      if t1.line == s1.line + 1 {
        RunKeepsEarlierLines(env, t1, s1.line);
        assert LevelAt(s2.levels, s1.line) == LevelAt(t1.levels, s1.line);
        var t := CountChar(env, s2);
        assert t.pos == s2.lineStartNext;
        LineEndStores(env, t);
        assert t2.levels == s2.levels && t2.writes == s2.writes;
      }
      RerunKeeps(env, t1, t2);
    }
  }

  /** Running the folder again over the same range, styles and line states,
      on the levels its first run left, writes nothing and leaves every level
      as it is. */
  lemma RerunWritesNothing(env: FoldEnv, levels0: map<nat, int>, startPos: nat, levels1: map<nat, int>)
    requires startPos <= env.endPos <= |env.doc|
    requires levels1 == FoldRun(env, FoldInit(env, levels0, startPos)).levels
    ensures FoldRun(env, FoldInit(env, levels1, startPos)).levels == levels1
    ensures FoldRun(env, FoldInit(env, levels1, startPos)).writes == []
  {
    var s1, s2 := FoldInit(env, levels0, startPos), FoldInit(env, levels1, startPos);
    if s1.line > 0 {
      RunKeepsEarlierLines(env, s1, s1.line - 1);
    }
    assert Twins(s1, s2);
    RerunKeeps(env, s1, s2);
  }
}
