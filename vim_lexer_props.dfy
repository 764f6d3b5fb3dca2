/** What the Vim colouriser does over one or several iterations: strings and
    their escapes, comments, words, command separators, and the per-line flags. */
module VimLexerProps {
  import opened CharClass
  import opened Iteration
  import opened StyleContext
  import opened VimStyles
  import opened VimEscape
  import opened VimLexer

  // ---------------------------------------------------------------------------
  // Iterations.

  /** One iteration as a function value; once the range is done it changes nothing. */
  ghost function StepFn(env: VimEnv): VimScan -> VimScan
  {
    (s: VimScan) => if s.sc.Valid() && s.sc.More() then Step(s, env) else s
  }

  /** n iterations of the loop (fewer if the range ends first). */
  ghost function Steps(s: VimScan, env: VimEnv, n: nat): VimScan
  {
    Iterate(StepFn(env), s, n)
  }

  /** f keeps g's value (and the cursor's validity). */
  ghost predicate KeepsValue(f: VimScan -> VimScan, g: VimScan -> VimScan)
  {
    forall u: VimScan {:trigger g(f(u))} :: u.sc.Valid() ==> f(u).sc.Valid() && g(f(u)) == g(u)
  }

  lemma {:induction false} IterateKeepsValue(f: VimScan -> VimScan, g: VimScan -> VimScan, s: VimScan, n: nat)
    requires KeepsValue(f, g) && s.sc.Valid()
    ensures Iterate(f, s, n).sc.Valid() && g(Iterate(f, s, n)) == g(s)
    decreases n
  {
    if n > 0 {
      assert g(f(s)) == g(s);
      assert f(s).sc.Valid();
      IterateKeepsValue(f, g, f(s), n - 1);
    }
  }

  /** The loop's result as a function value. */
  ghost function RunFn(env: VimEnv): VimScan -> VimScan
  {
    (u: VimScan) => if u.sc.Valid() then Run(u, env) else u
  }

  lemma StepKeepsRun(env: VimEnv)
    ensures KeepsValue(StepFn(env), RunFn(env))
  {
    forall u: VimScan | u.sc.Valid()
      ensures StepFn(env)(u).sc.Valid() && RunFn(env)(StepFn(env)(u)) == RunFn(env)(u)
    {
      if u.sc.More() {
        assert Run(u, env) == Run(Step(u, env), env);
      }
    }
  }

  /** After n iterations the loop computes what it computes from the start. */
  lemma RunSteps(s: VimScan, env: VimEnv, n: nat)
    requires s.sc.Valid()
    ensures Steps(s, env, n).sc.Valid() && Run(s, env) == Run(Steps(s, env, n), env)
  {
    StepKeepsRun(env);
    IterateKeepsValue(StepFn(env), RunFn(env), s, n);
  }

  /** `u` resumes `s`'s state after n characters styled st from s's position on:
      the open span of s is closed in s's state, then come n characters of st. */
  ghost predicate SpanResumes(s: VimScan, u: VimScan, st: VimStyle, n: nat)
  {
    s.sc.segStart <= s.sc.pos
    && u.sc == s.sc.(pos := s.sc.pos + n, segStart := s.sc.pos + n,
                     styles := s.sc.styles + Fill(s.sc.state, s.sc.pos - s.sc.segStart) + Fill(st, n))
  }

  /** An iteration is the body, then the tail unless the body ends with `continue`. */
  lemma StepIsBody(s: VimScan, env: VimEnv)
    requires s.sc.Valid() && s.sc.More()
    ensures Step(s, env) == if Body(s, env).1 then Body(s, env).0 else Tail(Body(s, env).0)
  {
  }

  // ---------------------------------------------------------------------------
  // Double-quoted strings and their escapes.

  lemma BodyAtDqBackslash(s: VimScan, env: VimEnv)
    requires s.sc.Valid() && s.sc.More() && s.sc.state == STRING_DQ && !s.sc.AtLineStart() && s.sc.Ch() == '\\'
    ensures Body(s, env) == (StringDqCase(s), false)
  {
    var (ok, e) := ResetEscape(s.sc.ChNext());
    assert StringDqCase(s).sc.state == if ok then ESCAPECHAR else STRING_DQ;
  }

  /** A backslash that starts no escape still hides the character after it: both
      stay in the string, so a `\"` of that kind cannot close the string. */
  lemma DqBackslashSkips(s: VimScan, env: VimEnv)
    requires s.sc.Valid() && s.sc.More() && s.sc.state == STRING_DQ && !s.sc.AtLineStart() && s.sc.Ch() == '\\'
    requires !ResetEscape(s.sc.ChNext()).0
    ensures Step(s, env).sc == s.sc.Forward().Forward()
    ensures Step(s, env).sc.state == STRING_DQ
  {
    BodyAtDqBackslash(s, env);
    StepIsBody(s, env);
  }

  /** The loop's iteration in the escape state. */
  lemma StepInEscape(t: VimScan, env: VimEnv)
    requires t.sc.Valid() && t.sc.More() && t.sc.state == ESCAPECHAR
    ensures Step(t, env).esc == EscapeEnd(t.esc, t.sc.Ch()).1
    ensures EscapeEnd(t.esc, t.sc.Ch()).0 ==> Step(t, env).sc == t.sc.SetState(STRING_DQ)
    ensures !EscapeEnd(t.esc, t.sc.Ch()).0 ==> Step(t, env).sc == t.sc.Forward()
  {
    assert Body(t, env) == EscapeCase(t);
    StepIsBody(t, env);
  }

  /** A backslash in a double-quoted string that starts an escape. */
  ghost predicate AtEscapeOpen(u: VimScan)
  {
    u.sc.Valid() && u.sc.More() && u.sc.state == STRING_DQ && !u.sc.AtLineStart()
    && u.sc.Ch() == '\\' && ResetEscape(u.sc.ChNext()).0
  }

  /** The scan is in an escape that takes in its current character. */
  ghost predicate AtEscapeDigit(u: VimScan)
  {
    u.sc.Valid() && u.sc.More() && u.sc.state == ESCAPECHAR && !EscapeEnd(u.esc, u.sc.Ch()).0
  }

  /** The scan is in an escape that is over at its current character. */
  ghost predicate AtEscapeLast(u: VimScan)
  {
    u.sc.Valid() && u.sc.More() && u.sc.state == ESCAPECHAR && EscapeEnd(u.esc, u.sc.Ch()).0
  }

  ghost predicate OpensEscape(f: VimScan -> VimScan)
  {
    forall u {:trigger AtEscapeOpen(u)} :: AtEscapeOpen(u) ==>
      f(u).sc.Valid() && f(u).sc == u.sc.SetState(ESCAPECHAR).Forward().Forward()
      && f(u).esc == ResetEscape(u.sc.ChNext()).1
  }

  ghost predicate TakesEscapeDigits(f: VimScan -> VimScan)
  {
    forall u {:trigger AtEscapeDigit(u)} :: AtEscapeDigit(u) ==>
      f(u).sc.Valid() && f(u).sc == u.sc.Forward() && f(u).esc == EscapeEnd(u.esc, u.sc.Ch()).1
  }

  ghost predicate EndsEscape(f: VimScan -> VimScan)
  {
    forall u {:trigger AtEscapeLast(u)} :: AtEscapeLast(u) ==> f(u).sc == u.sc.SetState(STRING_DQ)
  }

  /** The iteration at a backslash that opens an escape takes in the backslash
      and its introducer. */
  lemma EscapeFirstStep(s: VimScan, env: VimEnv)
    requires AtEscapeOpen(s)
    ensures Step(s, env).sc == s.sc.SetState(ESCAPECHAR).Forward().Forward()
    ensures Step(s, env).esc == ResetEscape(s.sc.ChNext()).1
  {
    BodyAtDqBackslash(s, env);
    StepIsBody(s, env);
  }

  lemma StepOpensEscape(env: VimEnv)
    ensures OpensEscape(StepFn(env))
  {
    forall u | AtEscapeOpen(u)
      ensures StepFn(env)(u).sc.Valid() && StepFn(env)(u).sc == u.sc.SetState(ESCAPECHAR).Forward().Forward()
              && StepFn(env)(u).esc == ResetEscape(u.sc.ChNext()).1
    {
      EscapeFirstStep(u, env);
    }
  }

  lemma StepTakesEscapeDigits(env: VimEnv)
    ensures TakesEscapeDigits(StepFn(env))
  {
    forall u | AtEscapeDigit(u)
      ensures StepFn(env)(u).sc.Valid() && StepFn(env)(u).sc == u.sc.Forward()
              && StepFn(env)(u).esc == EscapeEnd(u.esc, u.sc.Ch()).1
    {
      StepInEscape(u, env);
    }
  }

  lemma StepEndsEscape(env: VimEnv)
    ensures EndsEscape(StepFn(env))
  {
    forall u | AtEscapeLast(u)
      ensures StepFn(env)(u).sc == u.sc.SetState(STRING_DQ)
    {
      StepInEscape(u, env);
    }
  }

  /** u is t's escape j digits on, with `left` digits still to come. */
  ghost predicate EscapeAfter(t: VimScan, u: VimScan, j: nat, left: nat)
  {
    u.sc.Valid() && u.sc == t.sc.(pos := t.sc.pos + j) && EscapeDigits(u.esc, u.sc.doc, u.sc.pos) == left
  }

  /** The digits of an escape take one iteration each. */
  lemma {:induction false} EscapeDigitsIterate(f: VimScan -> VimScan, t: VimScan, j: nat, left: nat)
    requires TakesEscapeDigits(f) && t.sc.state == ESCAPECHAR && t.sc.pos + j + left < t.sc.endPos
    requires EscapeAfter(t, Iterate(f, t, j), j, left)
    ensures EscapeAfter(t, Iterate(f, t, j + left), j + left, 0)
    decreases left
  {
    if left > 0 {
      var u := Iterate(f, t, j);
      assert AtEscapeDigit(u);
      IterateLast(f, t, j);
      EscapeDigitsIterate(f, t, j + 1, left - 1);
      assert j + 1 + (left - 1) == j + left;
    }
  }

  /** The character count of an escape at p: the backslash, its introducer, and
      as many digits as the introducer's budget leaves and the digit run allows. */
  function EscapeLength(doc: seq<char>, p: nat): (n: nat)
    ensures n <= 10
    ensures ResetEscape(CharAt(doc, p + 1)).0 ==> n >= 2
  {
    var e := ResetEscape(CharAt(doc, p + 1)).1;
    2 + Min(e.digitsLeft - 1, OctalOrHexRun(doc, p + 2, e.hex))
  }

  /** The escape state and length right after a backslash that opens an escape. */
  lemma EscapeOpens(s: VimScan)
    requires AtEscapeOpen(s)
    ensures EscapeDigits(ResetEscape(s.sc.ChNext()).1, s.sc.doc, s.sc.pos + 2) + 2 == EscapeLength(s.sc.doc, s.sc.pos)
  {
    var e := ResetEscape(s.sc.ChNext()).1;
    ResetEscapeTable(s.sc.ChNext());
    EscapeDigitsLength(e, s.sc.doc, s.sc.pos + 2);
  }

  /** The styles once the escape is over: the string up to the backslash, then
      the escape's k + 2 characters. */
  lemma EscapeSpanGlue(s: VimScan, t1: VimScan, u: VimScan, v: VimScan, k: nat)
    requires s.sc.Valid() && s.sc.pos + 2 <= s.sc.endPos && s.sc.state == STRING_DQ
    requires t1.sc == s.sc.SetState(ESCAPECHAR).Forward().Forward()
    requires u.sc == t1.sc.(pos := t1.sc.pos + k) && u.sc.Valid()
    requires v.sc == u.sc.SetState(STRING_DQ)
    ensures SpanResumes(s, v, ESCAPECHAR, k + 2)
  {
  }

  /** An escape opened at s covers EscapeLength characters, for any f that
      iterates the way the loop does in an escape. */
  lemma EscapeSpanIterate(f: VimScan -> VimScan, s: VimScan)
    requires OpensEscape(f) && TakesEscapeDigits(f) && EndsEscape(f) && AtEscapeOpen(s)
    requires s.sc.pos + EscapeLength(s.sc.doc, s.sc.pos) < s.sc.endPos
    ensures SpanResumes(s, Iterate(f, s, EscapeLength(s.sc.doc, s.sc.pos)), ESCAPECHAR, EscapeLength(s.sc.doc, s.sc.pos))
  {
    EscapeOpens(s);
    var t1 := f(s);
    var k := EscapeDigits(t1.esc, t1.sc.doc, t1.sc.pos);
    assert t1.sc.pos == s.sc.pos + 2;
    assert EscapeAfter(t1, Iterate(f, t1, 0), 0, k);
    EscapeDigitsIterate(f, t1, 0, k);
    var u := Iterate(f, t1, k);
    assert AtEscapeLast(u);
    IterateLast(f, t1, k);
    EscapeSpanGlue(s, t1, u, f(u), k);
    assert Iterate(f, s, k + 2) == Iterate(f, t1, k + 1);
  }

  /** A backslash in a double-quoted string whose introducer starts an escape
      makes an escape of EscapeLength characters, after which the string resumes. */
  lemma EscapeSpan(s: VimScan, env: VimEnv)
    requires s.sc.Valid() && s.sc.state == STRING_DQ && !s.sc.AtLineStart()
    requires s.sc.Ch() == '\\' && ResetEscape(s.sc.ChNext()).0
    requires s.sc.pos + EscapeLength(s.sc.doc, s.sc.pos) < s.sc.endPos
    ensures SpanResumes(s, Steps(s, env, EscapeLength(s.sc.doc, s.sc.pos)), ESCAPECHAR, EscapeLength(s.sc.doc, s.sc.pos))
  {
    StepOpensEscape(env);
    StepTakesEscapeDigits(env);
    StepEndsEscape(env);
    EscapeSpanIterate(StepFn(env), s);
  }

  /** `\n`, `\"` and the other one-character escapes are two characters long. */
  lemma SingleCharEscapeLength(doc: seq<char>, p: nat)
    requires IsVimEscapeChar(CharAt(doc, p + 1))
    ensures EscapeLength(doc, p) == 2
  {
  }

  /** `\x41` is four characters: two hexadecimal digits after `\x`. */
  lemma HexEscapeLength(doc: seq<char>, p: nat)
    requires p + 4 <= |doc| && doc[p..p + 4] == "\\x41"
    ensures EscapeLength(doc, p) == 4
  {
    assert doc[p + 1] == 'x' && doc[p + 2] == '4' && doc[p + 3] == '1';
    assert OctalOrHexRun(doc, p + 2, true) == 1 + OctalOrHexRun(doc, p + 3, true);
    assert OctalOrHexRun(doc, p + 3, true) == 1 + OctalOrHexRun(doc, p + 4, true);
  }

  /** `\101` is four characters: the introducer is the first of three octal digits,
      so a fourth digit after them is plain text. */
  lemma OctalEscapeLength(doc: seq<char>, p: nat)
    requires p + 5 <= |doc| && doc[p..p + 5] == "\\1017"
    ensures EscapeLength(doc, p) == 4
  {
    assert doc[p + 1] == '1' && doc[p + 2] == '0' && doc[p + 3] == '1' && doc[p + 4] == '7';
    assert OctalOrHexRun(doc, p + 2, false) == 1 + OctalOrHexRun(doc, p + 3, false);
    assert OctalOrHexRun(doc, p + 3, false) == 1 + OctalOrHexRun(doc, p + 4, false);
  }

  /** `\x41` in a double-quoted string is one escape of four characters, after
      which the string resumes. */
  lemma HexEscapeSpan(s: VimScan, env: VimEnv)
    requires s.sc.Valid() && s.sc.state == STRING_DQ && !s.sc.AtLineStart()
    requires s.sc.pos + 4 < s.sc.endPos && s.sc.doc[s.sc.pos..s.sc.pos + 4] == "\\x41"
    ensures SpanResumes(s, Steps(s, env, 4), ESCAPECHAR, 4)
  {
    HexEscapeLength(s.sc.doc, s.sc.pos);
    assert s.sc.doc[s.sc.pos] == '\\' && s.sc.doc[s.sc.pos + 1] == 'x';
    EscapeSpan(s, env);
  }

  /** A double quote in a double-quoted string closes it; the quote is part of the string. */
  lemma DqQuoteCloses(s: VimScan)
    requires s.sc.Valid() && s.sc.More() && !s.sc.AtLineStart() && s.sc.Ch() == '"'
    ensures StringDqCase(s).sc.styles == s.sc.styles + Fill(s.sc.state, s.sc.pos + 1 - s.sc.segStart)
    ensures StringDqCase(s).sc.segStart == StringDqCase(s).sc.pos == s.sc.pos + 1
    ensures StringDqCase(s).sc.state == DEFAULT
  {
  }

  // ---------------------------------------------------------------------------
  // Single-quoted strings.

  /** `''` inside a single-quoted string is one escape of two characters, and the
      string goes on after it. */
  lemma DoubledQuoteSpan(s: VimScan, env: VimEnv)
    requires s.sc.Valid() && s.sc.state == STRING_SQ && !s.sc.AtLineStart()
    requires s.sc.pos + 2 <= s.sc.endPos && s.sc.Match('\'', '\'')
    ensures SpanResumes(s, Step(s, env), ESCAPECHAR, 2)
  {
    assert Body(s, env) == (DoubledQuote(s), true);
    StepIsBody(s, env);
  }

  /** A lone quote closes a single-quoted string: the quote is part of the string,
      and the default dispatch looks at the character after it in the same iteration. */
  lemma LoneQuoteCloses(s: VimScan, env: VimEnv)
    requires s.sc.Valid() && s.sc.More() && s.sc.state == STRING_SQ && !s.sc.AtLineStart()
    requires s.sc.Ch() == '\'' && s.sc.ChNext() != '\''
    ensures ForwardToDefault(s).sc.styles == s.sc.styles + Fill(STRING_SQ, s.sc.pos + 1 - s.sc.segStart)
    ensures ForwardToDefault(s).sc.pos == s.sc.pos + 1
    ensures Body(s, env) == (DefaultCase(ForwardToDefault(s)), false)
  {
  }

  // ---------------------------------------------------------------------------
  // Line ends.

  /** Strings, patterns and comments end at the end of their line: the text before
      the line start keeps the style, and the new line starts in the default state. */
  lemma LineStartEndsSpan(s: VimScan, env: VimEnv)
    requires s.sc.Valid() && s.sc.More() && s.sc.AtLineStart()
    requires s.sc.state in {STRING_DQ, STRING_SQ, REGEX, COMMENTLINE}
    ensures ToDefault(s).sc.styles == s.sc.styles + Fill(s.sc.state, s.sc.pos - s.sc.segStart)
    ensures Body(s, env) == (DefaultCase(ToDefault(s)), false)
    ensures s.sc.styles + Fill(s.sc.state, s.sc.pos - s.sc.segStart) <= Step(s, env).sc.styles
  {
    var a := ToDefault(s);
    assert Switch(s, env) == (a, false);
    StepIsBody(s, env);
    PrefixTrans(a.sc.styles, DefaultCase(a).sc.styles, Step(s, env).sc.styles);
  }

  // ---------------------------------------------------------------------------
  // Comments and the default dispatch.

  /** In legacy script a double quote at the logical start of a command opens a
      comment, which marks the line when it is the first visible character;
      anywhere else, and in Vim9 script everywhere, it opens a string. */
  lemma QuoteOpensCommentOrString(s: VimScan)
    requires s.sc.Valid() && s.sc.Ch() == '"'
    ensures DefaultCase(s).sc.state ==
              if s.logicalVisibleChars == 0 && !s.flags.vim9Script then COMMENTLINE else STRING_DQ
    ensures DefaultCase(s).flags.lineComment ==
              (s.flags.lineComment || (s.lineVisibleChars == 0 && s.logicalVisibleChars == 0 && !s.flags.vim9Script))
    ensures DefaultCase(s).flags == s.flags.(lineComment := DefaultCase(s).flags.lineComment)
    ensures DefaultCase(s).sc.pos == s.sc.pos
  {
  }

  /** `#` after white space (or at the start) opens a Vim9 comment and is an
      operator otherwise; as the first visible character it marks the line. */
  lemma HashOpensComment(s: VimScan)
    requires s.sc.Valid() && s.sc.Ch() == '#'
    ensures DefaultCase(s).sc.state == if s.sc.ChPrev() <= ' ' then COMMENTLINE else OPERATOR
    ensures DefaultCase(s).flags.lineComment == (s.flags.lineComment || s.lineVisibleChars == 0)
  {
  }

  /** A single `|` outside an `autocmd` line separates commands: the next command
      starts at logical column zero, while the line's visible count goes on. */
  lemma PipeStartsCommand(s: VimScan, env: VimEnv)
    requires s.sc.Valid() && s.sc.More() && s.sc.state == DEFAULT
    requires s.sc.Ch() == '|' && s.sc.ChNext() != '|' && !s.flags.autoCommand
    requires s.sc.pos + 1 < |s.sc.doc|
    ensures Step(s, env).logicalVisibleChars == 0
    ensures Step(s, env).lineVisibleChars == s.lineVisibleChars + 1
    ensures Step(s, env).sc == s.sc.SetState(OPERATOR).Forward()
  {
    assert Body(s, env) == (OperatorStart(s), false);
    StepIsBody(s, env);
  }

  /** A lower-case letter and a colon are a variable's namespace: the letter is
      styled as a variable and the colon as an operator. */
  lemma NamespacePrefix(s: VimScan)
    requires s.sc.Valid() && s.sc.More() && IsLowerCase(s.sc.Ch()) && s.sc.ChNext() == ':'
    ensures DefaultCase(s).sc.styles == s.sc.styles + Fill(s.sc.state, s.sc.pos - s.sc.segStart) + [ENV_VARIABLE]
    ensures DefaultCase(s).sc.state == OPERATOR && DefaultCase(s).sc.pos == s.sc.pos + 1
  {
    assert IsIdentifierStart(s.sc.Ch());
  }

  // ---------------------------------------------------------------------------
  // Words.

  /** A keyword at the logical start of a command, outside an `autocmd` line, is
      a statement keyword; `au` and `autocmd` put the line in autocmd mode, and
      `export` lets a `def` after it stay a keyword. */
  lemma KeywordAtCommandStart(s: VimScan, env: VimEnv)
    requires s.sc.Valid() && s.sc.GetCurrent() in env.keywords
    requires !s.flags.autoCommand && s.logicalVisibleChars == s.sc.LengthCurrent()
    ensures WordEnd(s, env).sc.styles == s.sc.styles + Fill(WORD, s.sc.LengthCurrent())
    ensures WordEnd(s, env).flags.autoCommand == (s.sc.GetCurrent() == "au" || s.sc.GetCurrent() == "autocmd")
    ensures WordEnd(s, env).kwType == if s.sc.GetCurrent() == "export" then KwExport else KwNone
  {
  }

  /** A keyword anywhere else is demoted, except `def` right after `export`. */
  lemma KeywordElsewhere(s: VimScan, env: VimEnv)
    requires s.sc.Valid() && s.sc.GetCurrent() in env.keywords
    requires s.flags.autoCommand || s.logicalVisibleChars != s.sc.LengthCurrent()
    ensures WordEnd(s, env).sc.styles == s.sc.styles
              + Fill(if s.kwType == KwExport && s.sc.GetCurrent() == "def" then WORD else WORD_DEMOTED, s.sc.LengthCurrent())
    ensures WordEnd(s, env).flags == s.flags && WordEnd(s, env).kwType == KwNone
  {
  }

  /** A command name; at the start of the line `vim9script` switches on Vim9 mode
      and `syn`/`syntax` lets a slash open a pattern exactly for `match` and `region`. */
  lemma CommandWord(s: VimScan, env: VimEnv)
    requires s.sc.Valid() && s.sc.GetCurrent() !in env.keywords && s.sc.GetCurrent() in env.commands
    ensures WordEnd(s, env).sc.styles == s.sc.styles + Fill(COMMANDS, s.sc.LengthCurrent())
    ensures WordEnd(s, env).flags.vim9Script ==
              (s.flags.vim9Script || (s.lineVisibleChars == s.sc.LengthCurrent() && s.sc.GetCurrent() == "vim9script"))
    ensures s.lineVisibleChars == s.sc.LengthCurrent() && s.sc.GetCurrent() in {"syn", "syntax"} ==>
              WordEnd(s, env).preferRegex == (s.sc.GetLineNextChar() in {'m', 'r'})
    ensures !(s.lineVisibleChars == s.sc.LengthCurrent() && s.sc.GetCurrent() in {"syn", "syntax"}) ==>
              WordEnd(s, env).preferRegex == s.preferRegex
  {
  }

  /** Any other word is a function when `(` is the next visible character on the line. */
  lemma OtherWord(s: VimScan, env: VimEnv)
    requires s.sc.Valid() && s.sc.GetCurrent() !in env.keywords && s.sc.GetCurrent() !in env.commands
    ensures WordEnd(s, env).sc.styles == s.sc.styles
              + Fill(if s.sc.GetLineNextChar() == '(' then FUNCTION else s.sc.state, s.sc.LengthCurrent())
    ensures WordEnd(s, env).flags == s.flags && WordEnd(s, env).kwType == KwNone
  {
  }

  // ---------------------------------------------------------------------------
  // Per-line flags.

  /** b keeps every flag of a that is set, except `autocmd`; the continuation flag is untouched. */
  predicate FlagsGrow(a: VimLineFlags, b: VimLineFlags)
  {
    (a.lineComment ==> b.lineComment) && a.continuation == b.continuation && (a.vim9Script ==> b.vim9Script)
  }

  lemma KeywordEndGrows(s: VimScan, w: string)
    requires s.sc.Valid()
    ensures FlagsGrow(s.flags, KeywordEnd(s, w).flags) && KeywordEnd(s, w).lineStates == s.lineStates
  {
  }

  lemma CommandEndGrows(s: VimScan, w: string)
    requires s.sc.Valid()
    ensures FlagsGrow(s.flags, CommandEnd(s, w).flags) && CommandEnd(s, w).lineStates == s.lineStates
  {
  }

  lemma WordEndGrows(s: VimScan, env: VimEnv)
    requires s.sc.Valid()
    ensures FlagsGrow(s.flags, WordEnd(s, env).flags) && WordEnd(s, env).lineStates == s.lineStates
  {
    var w := s.sc.GetCurrent();
    if w in env.keywords {
      KeywordEndGrows(s, w);
    } else if w in env.commands {
      CommandEndGrows(s, w);
    }
  }

  lemma SwitchGrows(s: VimScan, env: VimEnv)
    requires s.sc.Valid() && s.sc.More()
    ensures FlagsGrow(s.flags, Switch(s, env).0.flags) && Switch(s, env).0.lineStates == s.lineStates
  {
    match BranchOf(s.sc.state)
    case IdentifierBranch =>
      if !IsIdentifierChar(s.sc.Ch()) {
        WordEndGrows(s, env);
      }
    case EscapeBranch =>
      assert Switch(s, env) == EscapeCase(s);
    case SqBranch =>
      assert Switch(s, env) == StringSqCase(s);
    case _ =>
  }

  lemma DefaultCaseGrows(s: VimScan)
    requires s.sc.Valid()
    ensures FlagsGrow(s.flags, DefaultCase(s).flags) && DefaultCase(s).lineStates == s.lineStates
  {
  }

  /** The body of an iteration never clears the comment, continuation or Vim9 flag,
      and stores no line state. */
  lemma BodyKeepsFlags(s: VimScan, env: VimEnv)
    requires s.sc.Valid() && s.sc.More()
    ensures FlagsGrow(s.flags, Body(s, env).0.flags) && Body(s, env).0.lineStates == s.lineStates
  {
    var r1 := Switch(s, env);
    SwitchGrows(s, env);
    if !r1.1 && r1.0.sc.state == DEFAULT {
      DefaultCaseGrows(r1.0);
    }
  }

  /** The first visible character of a line (a leading `:` does not count) decides
      the continuation flag and ends an `autocmd` carried into the line. */
  lemma FirstVisibleFlags(s: VimScan)
    requires s.lineVisibleChars == 0
    ensures var ch := s.sc.Ch();
            var r := CountVisible(s);
            (IsSpaceChar(ch) || ch == ':' ==> r == s)
            && (ch == '\\' ==> r.flags == s.flags.(continuation := true) && r.lineVisibleChars == 1)
            && (!IsSpaceChar(ch) && ch != ':' && ch != '\\' ==>
                  r.flags == s.flags.(autoCommand := false) && r.lineVisibleChars == 1)
  {
  }

  /** Once a line has a visible character, counting leaves the flags alone. */
  lemma LaterVisibleFlags(s: VimScan)
    requires s.lineVisibleChars != 0
    ensures CountVisible(s).flags == s.flags
    ensures CountVisible(s).lineVisibleChars == s.lineVisibleChars + (if IsSpaceChar(s.sc.Ch()) then 0 else 1)
  {
  }

  /** At the end of a line its flags are stored for it, and only `autocmd` and
      Vim9 mode go on to the next line; a range that restarts at the next line
      reads back exactly the flags the scan carried on with. */
  lemma LineEndStoresFlags(s: VimScan)
    requires s.sc.Valid() && s.sc.AtLineEnd()
    ensures Tail(s).lineStates == s.lineStates[s.sc.CurrentLine() := Encode(CountVisible(s).flags)]
    ensures Tail(s).flags == CarryOver(CountVisible(s).flags)
    ensures Tail(s).lineVisibleChars == 0 && Tail(s).logicalVisibleChars == 0 && !Tail(s).preferRegex
    ensures RestoredFlags(Tail(s).lineStates[s.sc.CurrentLine()]) == Tail(s).flags
  {
    RestoreCarries(CountVisible(s).flags);
  }

  /** Away from a line end nothing is stored and the flags set so far stay set. */
  lemma WithinLineKeepsFlags(s: VimScan, env: VimEnv)
    requires s.sc.Valid() && s.sc.More() && !Body(s, env).1 && !Body(s, env).0.sc.AtLineEnd()
    ensures Step(s, env).lineStates == s.lineStates
    ensures s.flags.lineComment ==> Step(s, env).flags.lineComment
    ensures s.flags.continuation ==> Step(s, env).flags.continuation
    ensures s.flags.vim9Script ==> Step(s, env).flags.vim9Script
  {
    var b := Body(s, env).0;
    BodyKeepsFlags(s, env);
    StepIsBody(s, env);
    assert Step(s, env) == Tail(b);
    TailWithinLine(b);
  }

  /** The tail away from a line end stores nothing and keeps the flags set so far. */
  lemma TailWithinLine(b: VimScan)
    requires b.sc.Valid() && !b.sc.AtLineEnd()
    ensures Tail(b).lineStates == b.lineStates
    ensures b.flags.lineComment ==> Tail(b).flags.lineComment
    ensures b.flags.continuation ==> Tail(b).flags.continuation
    ensures b.flags.vim9Script ==> Tail(b).flags.vim9Script
  {
  }

  /** A range that starts on a later line resumes with the flags the line before
      it carried on with. */
  lemma RestartResumesFlags(s: VimScan, length: nat, initStyle: VimStyle)
    requires s.sc.Valid() && s.sc.Ch() == '\n' && s.sc.pos + 1 + length <= |s.sc.doc|
    ensures LineOf(s.sc.doc, s.sc.pos + 1) == s.sc.CurrentLine() + 1
    ensures InitScan(s.sc.doc, s.sc.pos + 1, length, initStyle, Tail(s).lineStates[s.sc.CurrentLine()]).flags
            == Tail(s).flags
  {
    LineEndStoresFlags(s);
  }

  /** The folder sees, for every line end, the comment and continuation flags the
      line had. */
  lemma LineEndFoldBits(s: VimScan)
    requires s.sc.Valid() && s.sc.AtLineEnd()
    ensures FoldLineStateOf(Tail(s).lineStates[s.sc.CurrentLine()]).lineComment
            == (if CountVisible(s).flags.lineComment then 1 else 0)
    ensures FoldLineStateOf(Tail(s).lineStates[s.sc.CurrentLine()]).lineContinuation
            == (if CountVisible(s).flags.continuation then 1 else 0)
  {
    FoldLineStateOfEncode(CountVisible(s).flags);
  }

  /** A document starting with `#!` starts with a comment line. */
  lemma ShebangIsComment(doc: seq<char>, length: nat, initStyle: VimStyle, prevLineState: int)
    requires 0 < length <= |doc| && CharAt(doc, 0) == '#' && CharAt(doc, 1) == '!'
    ensures InitScan(doc, 0, length, initStyle, prevLineState).sc.state == COMMENTLINE
    ensures InitScan(doc, 0, length, initStyle, prevLineState).sc.pos == 1
    ensures InitScan(doc, 0, length, initStyle, prevLineState).flags == NoFlags.(lineComment := true)
  {
  }

  // ---------------------------------------------------------------------------
  // Into the output.

  /** Whatever a number of iterations styles is part of the final styles. */
  lemma StylesKept(s: VimScan, env: VimEnv, n: nat)
    requires s.sc.Valid()
    ensures Steps(s, env, n).sc.styles <= Run(s, env).sc.Complete().styles
  {
    RunSteps(s, env, n);
    var t := Run(s, env);
    PrefixAppend(t.sc.styles, Fill(t.sc.state, t.sc.pos - t.sc.segStart));
    PrefixTrans(Steps(s, env, n).sc.styles, t.sc.styles, t.sc.Complete().styles);
  }
}
