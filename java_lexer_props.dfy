/** What the Java colouriser does over several iterations: escape sequences,
    string-template interpolations, message-format placeholders, format
    specifiers, the classification of words, and the per-line state. */
module JavaLexerProps {
  import opened CharClass
  import opened Iteration
  import opened StyleContext
  import opened JavaStyles
  import opened JavaEscape
  import opened JavaFormat
  import opened JavaKeywords
  import opened JavaLexer

  // ---------------------------------------------------------------------------
  // Iterations.

  /** One iteration as a function value; once the range is done it changes nothing. */
  ghost function StepFn(env: JavaEnv): JavaScan -> JavaScan
  {
    s => if Inv(s) && s.sc.More() then Step(s, env) else s
  }

  /** n iterations of the loop (fewer if the range ends first). */
  ghost function Steps(s: JavaScan, env: JavaEnv, n: nat): JavaScan
  {
    Iterate(StepFn(env), s, n)
  }

  /** f keeps g's value (and the scan invariant). */
  ghost predicate KeepsValue(f: JavaScan -> JavaScan, g: JavaScan -> JavaScan)
  {
    forall u {:trigger g(f(u))} :: Inv(u) ==> Inv(f(u)) && g(f(u)) == g(u)
  }

  lemma {:induction false} IterateKeepsValue(f: JavaScan -> JavaScan, g: JavaScan -> JavaScan, s: JavaScan, n: nat)
    requires KeepsValue(f, g) && Inv(s)
    ensures Inv(Iterate(f, s, n)) && g(Iterate(f, s, n)) == g(s)
    decreases n
  {
    if n > 0 {
      assert g(f(s)) == g(s);
      assert Inv(f(s));
      IterateKeepsValue(f, g, f(s), n - 1);
    }
  }

  /** The loop's result as a function value. */
  ghost function RunFn(env: JavaEnv): JavaScan -> JavaScan
  {
    u => if Inv(u) then Run(u, env) else u
  }

  lemma StepKeepsRun(env: JavaEnv)
    ensures KeepsValue(StepFn(env), RunFn(env))
  {
    forall u | Inv(u)
      ensures Inv(StepFn(env)(u)) && RunFn(env)(StepFn(env)(u)) == RunFn(env)(u)
    {
      if u.sc.More() {
        assert Run(u, env) == Run(Step(u, env), env);
      }
    }
  }

  /** After n iterations the loop computes what it computes from the start. */
  lemma RunSteps(s: JavaScan, env: JavaEnv, n: nat)
    requires Inv(s)
    ensures Inv(Steps(s, env, n)) && Run(s, env) == Run(Steps(s, env, n), env)
  {
    StepKeepsRun(env);
    IterateKeepsValue(StepFn(env), RunFn(env), s, n);
  }

  /** `u` resumes `s`'s state after n characters styled st from s's position on:
      the open span of s is closed in s's state, then come n characters of st. */
  ghost predicate SpanResumes(s: JavaScan, u: JavaScan, st: JavaStyle, n: nat)
  {
    s.sc.segStart <= s.sc.pos
    && u.sc == s.sc.(pos := s.sc.pos + n, segStart := s.sc.pos + n,
                     styles := s.sc.styles + Fill(s.sc.state, s.sc.pos - s.sc.segStart) + Fill(st, n))
  }

  // ---------------------------------------------------------------------------
  // One iteration, state by state.

  /** An iteration is the body, then the tail unless the body ends with `continue`. */
  lemma StepIsBody(s: JavaScan, env: JavaEnv)
    requires Inv(s) && s.sc.More()
    ensures Step(s, env) == if Body(s, env).1 then Body(s, env).0 else Tail(Body(s, env).0)
  {
  }

  lemma BodyInEscape(t: JavaScan, env: JavaEnv)
    requires Inv(t) && t.sc.More() && t.sc.state == ESCAPECHAR
    ensures Body(t, env) == EscapeCase(t)
  {
  }

  /** In an escape, an iteration spends one unit of the budget; when the escape
      is over it returns to the outer state without moving. */
  lemma StepEscapeEnds(t: JavaScan, env: JavaEnv)
    requires Inv(t) && t.sc.More() && t.sc.state == ESCAPECHAR && EscapeEnd(t.esc, t.sc.Ch()).0
    ensures Step(t, env).esc == EscapeEnd(t.esc, t.sc.Ch()).1
    ensures Step(t, env).sc == t.sc.SetState(t.esc.outerState)
  {
    BodyInEscape(t, env);
    StepIsBody(t, env);
  }

  /** Otherwise the escape takes in the character and moves on. */
  lemma StepEscapeGoesOn(t: JavaScan, env: JavaEnv)
    requires Inv(t) && t.sc.More() && t.sc.state == ESCAPECHAR && !EscapeEnd(t.esc, t.sc.Ch()).0
    ensures Step(t, env).esc == EscapeEnd(t.esc, t.sc.Ch()).1
    ensures Step(t, env).sc == t.sc.Forward()
  {
    BodyInEscape(t, env);
    StepIsBody(t, env);
  }

  lemma BodyInPlaceholder(t: JavaScan, env: JavaEnv)
    requires Inv(t) && t.sc.More() && t.sc.state == PLACEHOLDER
    ensures Body(t, env) == PlaceholderCase(t)
  {
    assert Switch(t, env) == PlaceholderCase(t);
    assert PlaceholderCase(t).1 || PlaceholderCase(t).0.sc.state == PLACEHOLDER;
  }

  /** In a placeholder, a digit moves on; anything else ends it: a `}` is part of
      it, any other character gives the brace and digits back to the string. */
  lemma StepInPlaceholder(t: JavaScan, env: JavaEnv)
    requires Inv(t) && t.sc.More() && t.sc.state == PLACEHOLDER
    ensures Step(t, env).esc == t.esc
    ensures IsADigit(t.sc.Ch()) ==> Step(t, env).sc == t.sc.Forward()
    ensures t.sc.Ch() == '}' ==> Step(t, env).sc == t.sc.Forward().SetState(t.esc.outerState)
    ensures !IsADigit(t.sc.Ch()) && t.sc.Ch() != '}' ==>
              Step(t, env).sc == t.sc.Rewind().ChangeState(t.esc.outerState).Forward().SetState(t.esc.outerState)
  {
    BodyInPlaceholder(t, env);
    StepIsBody(t, env);
  }

  /** A backslash in a string (past the start of a line for a single-line one)
      takes the backslash branch and no default dispatch. */
  lemma StepAtBackslash(s: JavaScan, env: JavaEnv)
    requires Inv(s) && s.sc.More() && IsStringStyle(s.sc.state)
    requires !(s.sc.AtLineStart() && IsSingleLineString(s.sc.state))
    requires s.sc.Ch() == '\\'
    ensures Step(s, env) == Tail(BackslashCase(s))
  {
    assert Body(s, env) == (BackslashCase(s), false);
    StepIsBody(s, env);
  }

  /** A brace in a string other than a character literal opens a placeholder when a digit follows. */
  lemma StepAtBrace(s: JavaScan, env: JavaEnv)
    requires Inv(s) && s.sc.More() && IsStringStyle(s.sc.state) && s.sc.state != CHARACTER
    requires !(s.sc.AtLineStart() && IsSingleLineString(s.sc.state))
    requires s.sc.Ch() == '{'
    ensures Step(s, env) == Tail(StringCase(s).0)
  {
    assert Body(s, env) == (StringCase(s).0, false);
    StepIsBody(s, env);
  }

  /** A percent sign that starts a format specifier styles the whole specifier in one iteration. */
  lemma StepAtPercent(s: JavaScan, env: JavaEnv)
    requires Inv(s) && s.sc.More() && IsStringStyle(s.sc.state) && s.sc.state != CHARACTER
    requires !(s.sc.AtLineStart() && IsSingleLineString(s.sc.state))
    requires s.sc.Ch() == '%' && FormatSpecLength(s.sc.doc, s.sc.pos, s.insideUrl) != 0
    ensures Step(s, env) == FormatCase(s, FormatSpecLength(s.sc.doc, s.sc.pos, s.insideUrl))
  {
    assert Body(s, env) == (FormatCase(s, FormatSpecLength(s.sc.doc, s.sc.pos, s.insideUrl)), true);
    StepIsBody(s, env);
  }

  /** The state the default dispatch sees: an operator is closed first. */
  function CodeEntry(s: JavaScan): (a: JavaScan)
    requires Inv(s)
    ensures Inv(a) && a.sc.state == DEFAULT && a.nested == s.nested && a.sc.pos == s.sc.pos
  {
    if s.sc.state == DEFAULT then s else OperatorCase(s)
  }

  /** In the default state or right after an operator, the iteration is the
      default dispatch (after closing the operator). */
  lemma BodyInCode(s: JavaScan, env: JavaEnv)
    requires Inv(s) && s.sc.More()
    requires s.sc.state == DEFAULT || s.sc.state == OPERATOR || s.sc.state == OPERATOR2
    ensures Body(s, env) == DefaultCase(CodeEntry(s))
  {
  }

  lemma StepInCode(s: JavaScan, env: JavaEnv)
    requires Inv(s) && s.sc.More()
    requires s.sc.state == DEFAULT || s.sc.state == OPERATOR || s.sc.state == OPERATOR2
    ensures Step(s, env) == if DefaultCase(CodeEntry(s)).1 then DefaultCase(CodeEntry(s)).0
                            else Tail(DefaultCase(CodeEntry(s)).0)
  {
    BodyInCode(s, env);
    StepIsBody(s, env);
  }

  lemma BodyAtWordEnd(s: JavaScan, env: JavaEnv)
    requires Inv(s) && s.sc.More() && s.sc.state == IDENTIFIER && !IsIdentifierCharEx(s.sc.Ch())
    requires s.sc.GetCurrent() == [] || s.sc.GetCurrent()[0] != '@'
    ensures !WordEnd(s, env).1 && WordEnd(s, env).0.sc.state == DEFAULT
    ensures Body(s, env) == DefaultCase(WordEnd(s, env).0)
  {
  }

  /** At the end of an identifier that does not start with '@', the iteration
      classifies it and then runs the default dispatch. */
  lemma StepAtWordEnd(s: JavaScan, env: JavaEnv)
    requires Inv(s) && s.sc.More() && s.sc.state == IDENTIFIER && !IsIdentifierCharEx(s.sc.Ch())
    requires s.sc.GetCurrent() == [] || s.sc.GetCurrent()[0] != '@'
    ensures Step(s, env) == if DefaultCase(WordEnd(s, env).0).1 then DefaultCase(WordEnd(s, env).0).0
                            else Tail(DefaultCase(WordEnd(s, env).0).0)
  {
    BodyAtWordEnd(s, env);
    StepIsBody(s, env);
  }

  // ---------------------------------------------------------------------------
  // Escape sequences.
  //
  // A multi-iteration property is proved once for any function f that behaves
  // like an iteration in the states the property goes through (the Takes/Opens/
  // Ends predicates below), and then for the loop's own iteration StepFn.

  /** A backslash in a string that opens an escape. */
  ghost predicate AtEscapeOpen(u: JavaScan)
  {
    Inv(u) && u.sc.More() && IsStringStyle(u.sc.state)
    && !(u.sc.AtLineStart() && IsSingleLineString(u.sc.state))
    && u.sc.Ch() == '\\' && !IsEOLChar(u.sc.ChNext())
    && !(u.sc.ChNext() == '{' && IsTemplate(u.sc.state))
  }

  /** The scan is in an escape that takes in its current character. */
  ghost predicate AtEscapeDigit(u: JavaScan)
  {
    Inv(u) && u.sc.More() && u.sc.state == ESCAPECHAR && !EscapeEnd(u.esc, u.sc.Ch()).0
  }

  /** The scan is in an escape that is over at its current character. */
  ghost predicate AtEscapeLast(u: JavaScan)
  {
    Inv(u) && u.sc.More() && u.sc.state == ESCAPECHAR && EscapeEnd(u.esc, u.sc.Ch()).0
  }

  ghost predicate OpensEscape(f: JavaScan -> JavaScan)
  {
    forall u {:trigger AtEscapeOpen(u)} :: AtEscapeOpen(u) ==>
      Inv(f(u)) && f(u).sc == u.sc.SetState(ESCAPECHAR).Forward().Forward()
      && f(u).esc == ResetEscape(u.esc, u.sc.state, u.sc.ChNext()).1
  }

  ghost predicate TakesEscapeDigits(f: JavaScan -> JavaScan)
  {
    forall u {:trigger AtEscapeDigit(u)} :: AtEscapeDigit(u) ==>
      Inv(f(u)) && f(u).sc == u.sc.Forward() && f(u).esc == EscapeEnd(u.esc, u.sc.Ch()).1
  }

  ghost predicate EndsEscape(f: JavaScan -> JavaScan)
  {
    forall u {:trigger AtEscapeLast(u)} :: AtEscapeLast(u) ==> f(u).sc == u.sc.SetState(u.esc.outerState)
  }

  /** The iteration at a backslash that opens an escape. */
  lemma EscapeFirstStep(s: JavaScan, env: JavaEnv)
    requires AtEscapeOpen(s)
    ensures Step(s, env).sc == s.sc.SetState(ESCAPECHAR).Forward().Forward()
    ensures Step(s, env).esc == ResetEscape(s.esc, s.sc.state, s.sc.ChNext()).1
  {
    ResetEscapeBudget(s.esc, s.sc.state, s.sc.ChNext());
    StepAtBackslash(s, env);
  }

  lemma StepOpensEscape(env: JavaEnv)
    ensures OpensEscape(StepFn(env))
  {
    forall u | AtEscapeOpen(u)
      ensures Inv(StepFn(env)(u)) && StepFn(env)(u).sc == u.sc.SetState(ESCAPECHAR).Forward().Forward()
              && StepFn(env)(u).esc == ResetEscape(u.esc, u.sc.state, u.sc.ChNext()).1
    {
      EscapeFirstStep(u, env);
    }
  }

  lemma StepTakesEscapeDigits(env: JavaEnv)
    ensures TakesEscapeDigits(StepFn(env))
  {
    forall u | AtEscapeDigit(u)
      ensures Inv(StepFn(env)(u)) && StepFn(env)(u).sc == u.sc.Forward()
              && StepFn(env)(u).esc == EscapeEnd(u.esc, u.sc.Ch()).1
    {
      StepEscapeGoesOn(u, env);
    }
  }

  lemma StepEndsEscape(env: JavaEnv)
    ensures EndsEscape(StepFn(env))
  {
    forall u | AtEscapeLast(u)
      ensures StepFn(env)(u).sc == u.sc.SetState(u.esc.outerState)
    {
      StepEscapeEnds(u, env);
    }
  }

  /** u is t's escape j digits on, with `left` digits still to come. */
  ghost predicate EscapeAfter(t: JavaScan, u: JavaScan, j: nat, left: nat)
  {
    Inv(u) && u.sc == t.sc.(pos := t.sc.pos + j) && u.esc.outerState == t.esc.outerState
    && EscapeDigits(u.esc, u.sc.doc, u.sc.pos) == left
  }

  /** The digits of an escape take one iteration each. */
  lemma {:induction false} EscapeDigitsIterate(f: JavaScan -> JavaScan, t: JavaScan, j: nat, left: nat)
    requires TakesEscapeDigits(f) && t.sc.state == ESCAPECHAR && t.sc.pos + j + left < t.sc.endPos
    requires EscapeAfter(t, Iterate(f, t, j), j, left)
    ensures EscapeAfter(t, Iterate(f, t, j + left), j + left, 0)
    decreases left
  {
    if left > 0 {
      var u := Iterate(f, t, j);
      assert AtEscapeDigit(u);
      IterateLast(f, t, j);
      EscapeDigitsIterate(f, t, j + 1, left - 1);
      assert j + 1 + (left - 1) == j + left;
    }
  }

  /** The character count of an escape: the backslash, its introducer, and as many
      digits as the introducer's budget leaves and the digit run allows. */
  function EscapeLength(doc: seq<char>, p: nat): (n: nat)
    ensures 2 <= n <= 6
  {
    2 + Min(Budget(CharAt(doc, p + 1)) - 1, OctalOrHexRun(doc, p + 2, CharAt(doc, p + 1) == 'u'))
  }

  /** The escape state and length right after a backslash that opens an escape. */
  lemma EscapeOpens(s: JavaScan)
    requires Inv(s) && IsStringStyle(s.sc.state) && !IsEOLChar(s.sc.ChNext())
    ensures ResetEscape(s.esc, s.sc.state, s.sc.ChNext()).0
    ensures ResetEscape(s.esc, s.sc.state, s.sc.ChNext()).1.outerState == s.sc.state
    ensures EscapeDigits(ResetEscape(s.esc, s.sc.state, s.sc.ChNext()).1, s.sc.doc, s.sc.pos + 2) + 2
            == EscapeLength(s.sc.doc, s.sc.pos)
  {
    var e := ResetEscape(s.esc, s.sc.state, s.sc.ChNext()).1;
    ResetEscapeBudget(s.esc, s.sc.state, s.sc.ChNext());
    EscapeDigitsLength(e, s.sc.doc, s.sc.pos + 2);
  }

  /** The styles once the escape is over: the string up to the backslash, then
      the escape's k + 2 characters. */
  lemma EscapeSpanGlue(s: JavaScan, t1: JavaScan, u: JavaScan, v: JavaScan, k: nat)
    requires s.sc.Valid() && s.sc.pos + 2 <= s.sc.endPos
    requires t1.sc == s.sc.SetState(ESCAPECHAR).Forward().Forward() && t1.esc.outerState == s.sc.state
    requires u.sc == t1.sc.(pos := t1.sc.pos + k) && u.sc.Valid()
    requires v.sc == u.sc.SetState(s.sc.state)
    ensures SpanResumes(s, v, ESCAPECHAR, k + 2)
  {
  }

  /** An escape opened at s covers EscapeLength characters, for any f that
      iterates the way the loop does in an escape. */
  lemma EscapeSpanIterate(f: JavaScan -> JavaScan, s: JavaScan)
    requires OpensEscape(f) && TakesEscapeDigits(f) && EndsEscape(f) && AtEscapeOpen(s)
    requires s.sc.pos + EscapeLength(s.sc.doc, s.sc.pos) < s.sc.endPos
    ensures SpanResumes(s, Iterate(f, s, EscapeLength(s.sc.doc, s.sc.pos)), ESCAPECHAR, EscapeLength(s.sc.doc, s.sc.pos))
  {
    EscapeOpens(s);
    var t1 := f(s);
    var k := EscapeDigits(t1.esc, t1.sc.doc, t1.sc.pos);
    assert t1.sc.pos == s.sc.pos + 2;
    assert EscapeAfter(t1, Iterate(f, t1, 0), 0, k);
    EscapeDigitsIterate(f, t1, 0, k);
    var u := Iterate(f, t1, k);
    assert AtEscapeLast(u);
    IterateLast(f, t1, k);
    EscapeSpanGlue(s, t1, u, f(u), k);
    assert Iterate(f, s, k + 2) == Iterate(f, t1, k + 1);
  }

  /** A backslash in a string (other than `\{` in a template, one at the start of
      a single-line string's continuation line, or one at the end of a line)
      starts an escape that covers EscapeLength characters, after which the
      string resumes. */
  lemma EscapeSpan(s: JavaScan, env: JavaEnv)
    requires Inv(s) && IsStringStyle(s.sc.state)
    requires !(s.sc.AtLineStart() && IsSingleLineString(s.sc.state))
    requires s.sc.Ch() == '\\' && !IsEOLChar(s.sc.ChNext())
    requires !(s.sc.ChNext() == '{' && IsTemplate(s.sc.state))
    requires s.sc.pos + EscapeLength(s.sc.doc, s.sc.pos) < s.sc.endPos
    ensures SpanResumes(s, Steps(s, env, EscapeLength(s.sc.doc, s.sc.pos)), ESCAPECHAR, EscapeLength(s.sc.doc, s.sc.pos))
  {
    StepOpensEscape(env);
    StepTakesEscapeDigits(env);
    StepEndsEscape(env);
    EscapeSpanIterate(StepFn(env), s);
  }

  /** `\u0041` has six characters as an escape. */
  lemma UnicodeEscapeLength(doc: seq<char>, p: nat)
    requires p + 6 < |doc| && doc[p..p + 6] == "\\u0041"
    ensures EscapeLength(doc, p) == 6 && CharAt(doc, p) == '\\' && CharAt(doc, p + 1) == 'u'
  {
    assert doc[p] == '\\' && doc[p + 1] == 'u';
    assert doc[p + 2] == '0' && doc[p + 3] == '0' && doc[p + 4] == '4' && doc[p + 5] == '1';
    assert OctalOrHexRun(doc, p + 2, true) == 1 + OctalOrHexRun(doc, p + 3, true);
    assert OctalOrHexRun(doc, p + 3, true) == 1 + OctalOrHexRun(doc, p + 4, true);
    assert OctalOrHexRun(doc, p + 4, true) == 1 + OctalOrHexRun(doc, p + 5, true);
    assert OctalOrHexRun(doc, p + 5, true) == 1 + OctalOrHexRun(doc, p + 6, true);
  }

  /** `\u0041` in a string is one escape of six characters, after which the string resumes. */
  lemma UnicodeEscapeSpan(s: JavaScan, env: JavaEnv)
    requires Inv(s) && IsStringStyle(s.sc.state)
    requires !(s.sc.AtLineStart() && IsSingleLineString(s.sc.state))
    requires s.sc.pos + 6 < s.sc.endPos && s.sc.doc[s.sc.pos..s.sc.pos + 6] == "\\u0041"
    ensures SpanResumes(s, Steps(s, env, 6), ESCAPECHAR, 6)
  {
    UnicodeEscapeLength(s.sc.doc, s.sc.pos);
    EscapeSpan(s, env);
  }

  // ---------------------------------------------------------------------------
  // String templates.

  /** `\{` in a template. */
  ghost predicate AtInterpolationOpen(u: JavaScan)
  {
    Inv(u) && u.sc.More() && IsTemplate(u.sc.state) && !(u.sc.AtLineStart() && IsSingleLineString(u.sc.state))
    && u.sc.pos + 1 < u.sc.endPos && u.sc.Match('\\', '{')
  }

  /** A closing brace in code inside an interpolation. */
  ghost predicate AtCloseBrace(u: JavaScan)
  {
    Inv(u) && u.sc.More() && u.nested != [] && u.sc.Ch() == '}'
    && (u.sc.state == DEFAULT || u.sc.state == OPERATOR || u.sc.state == OPERATOR2)
  }

  ghost predicate OpensInterpolation(f: JavaScan -> JavaScan)
  {
    forall u {:trigger AtInterpolationOpen(u)} :: AtInterpolationOpen(u) ==>
      Inv(f(u)) && f(u).nested == u.nested + [u.sc.state]
      && f(u).sc == u.sc.SetState(OPERATOR2).(pos := u.sc.pos + 2)
  }

  ghost predicate ClosesBrace(f: JavaScan -> JavaScan)
  {
    forall u {:trigger AtCloseBrace(u)} :: AtCloseBrace(u) ==>
      f(u).nested == u.nested[..|u.nested| - 1]
      && f(u).sc == CodeEntry(u).sc.SetState(OPERATOR2).Forward().SetState(u.nested[|u.nested| - 1])
  }

  /** `\{` in a template pushes the template on the stack and styles both
      characters as an interpolation operator. */
  lemma InterpolationOpens(s: JavaScan, env: JavaEnv)
    requires AtInterpolationOpen(s)
    ensures Step(s, env).nested == s.nested + [s.sc.state]
    ensures Step(s, env).sc == s.sc.SetState(OPERATOR2).(pos := s.sc.pos + 2)
  {
    StepAtBackslash(s, env);
  }

  /** Inside an interpolation an opening brace pushes a block entry. */
  lemma DefaultAtOpenBrace(s: JavaScan)
    requires Inv(s) && s.sc.state == DEFAULT && s.nested != [] && s.sc.Ch() == '{'
    ensures DefaultCase(s) == (s.(sc := s.sc.SetState(OPERATOR2), nested := s.nested + [DEFAULT]), false)
  {
    assert DefaultCase(s) == CodeStart(s);
  }

  /** Inside an interpolation a closing brace pops the innermost entry and moves on. */
  lemma DefaultAtCloseBrace(s: JavaScan)
    requires Inv(s) && s.sc.state == DEFAULT && s.nested != [] && s.sc.Ch() == '}'
    ensures DefaultCase(s) == (s.(sc := s.sc.SetState(OPERATOR2).ForwardSetState(s.nested[|s.nested| - 1]),
                                  nested := s.nested[..|s.nested| - 1]), true)
  {
    assert DefaultCase(s) == CodeStart(s);
  }

  /** Inside an interpolation, `{` opens a nested brace. */
  lemma InterpolationBraceOpens(s: JavaScan, env: JavaEnv)
    requires Inv(s) && s.sc.More() && s.nested != [] && s.sc.Ch() == '{'
    requires s.sc.state == DEFAULT || s.sc.state == OPERATOR || s.sc.state == OPERATOR2
    ensures Step(s, env).nested == s.nested + [DEFAULT]
    ensures Step(s, env).sc.state == OPERATOR2 && Step(s, env).sc.segStart == s.sc.pos
  {
    DefaultAtOpenBrace(CodeEntry(s));
    StepInCode(s, env);
  }

  /** Inside an interpolation, `}` pops the innermost entry, returning to the
      template when the entry is the template itself. */
  lemma InterpolationBraceCloses(s: JavaScan, env: JavaEnv)
    requires AtCloseBrace(s)
    ensures Step(s, env).nested == s.nested[..|s.nested| - 1]
    ensures Step(s, env).sc == CodeEntry(s).sc.SetState(OPERATOR2).Forward().SetState(s.nested[|s.nested| - 1])
  {
    DefaultAtCloseBrace(CodeEntry(s));
    StepInCode(s, env);
  }

  lemma StepOpensInterpolation(env: JavaEnv)
    ensures OpensInterpolation(StepFn(env))
  {
    forall u | AtInterpolationOpen(u)
      ensures Inv(StepFn(env)(u)) && StepFn(env)(u).nested == u.nested + [u.sc.state]
              && StepFn(env)(u).sc == u.sc.SetState(OPERATOR2).(pos := u.sc.pos + 2)
    {
      InterpolationOpens(u, env);
    }
  }

  lemma StepClosesBrace(env: JavaEnv)
    ensures ClosesBrace(StepFn(env))
  {
    forall u | AtCloseBrace(u)
      ensures StepFn(env)(u).nested == u.nested[..|u.nested| - 1]
              && StepFn(env)(u).sc == CodeEntry(u).sc.SetState(OPERATOR2).Forward().SetState(u.nested[|u.nested| - 1])
    {
      InterpolationBraceCloses(u, env);
    }
  }

  lemma EmptyInterpolationGlue(s: JavaScan, t: JavaScan, u: JavaScan)
    requires s.sc.Valid() && s.sc.pos + 2 < s.sc.endPos
    requires t.sc == s.sc.SetState(OPERATOR2).(pos := s.sc.pos + 2)
    requires u.sc == t.sc.SetState(DEFAULT).SetState(OPERATOR2).Forward().SetState(s.sc.state)
    ensures SpanResumes(s, u, OPERATOR2, 3)
  {
    assert Fill(OPERATOR2, 2) + Fill(DEFAULT, 0) + Fill(OPERATOR2, 1) == Fill(OPERATOR2, 3);
  }

  lemma EmptyInterpolationIterate(f: JavaScan -> JavaScan, s: JavaScan)
    requires OpensInterpolation(f) && ClosesBrace(f) && AtInterpolationOpen(s)
    requires s.sc.pos + 2 < s.sc.endPos && s.sc.GetRelative(2) == '}'
    ensures Iterate(f, s, 2).nested == s.nested
    ensures SpanResumes(s, Iterate(f, s, 2), OPERATOR2, 3)
  {
    var t := f(s);
    assert t.sc.Ch() == '}' && t.sc.state == OPERATOR2;
    assert AtCloseBrace(t);
    var u := f(t);
    assert Iterate(f, s, 2) == u;
    assert t.nested + [s.sc.state] == s.nested + [s.sc.state] + [s.sc.state] ==> true;
    assert t.nested[..|t.nested| - 1] == s.nested;
    EmptyInterpolationGlue(s, t, u);
  }

  /** `\{}` in a template is three interpolation characters and leaves the
      template and its stack as they were. */
  lemma EmptyInterpolationRoundTrip(s: JavaScan, env: JavaEnv)
    requires Inv(s) && IsTemplate(s.sc.state)
    requires !(s.sc.AtLineStart() && IsSingleLineString(s.sc.state))
    requires s.sc.pos + 2 < s.sc.endPos && s.sc.Match3('\\', '{', '}')
    ensures Steps(s, env, 2).nested == s.nested
    ensures SpanResumes(s, Steps(s, env, 2), OPERATOR2, 3)
  {
    StepOpensInterpolation(env);
    StepClosesBrace(env);
    EmptyInterpolationIterate(StepFn(env), s);
  }

  // ---------------------------------------------------------------------------
  // Message-format placeholders and format specifiers.

  /** A brace followed by a digit in a string other than a character literal. */
  ghost predicate AtPlaceholderOpen(u: JavaScan)
  {
    Inv(u) && u.sc.More() && IsStringStyle(u.sc.state) && u.sc.state != CHARACTER
    && !(u.sc.AtLineStart() && IsSingleLineString(u.sc.state))
    && u.sc.Ch() == '{' && IsADigit(u.sc.ChNext())
  }

  /** The scan is in a placeholder at a digit. */
  ghost predicate AtPlaceholderDigit(u: JavaScan)
  {
    Inv(u) && u.sc.More() && u.sc.state == PLACEHOLDER && IsADigit(u.sc.Ch())
  }

  /** The scan is in a placeholder at its closing brace. */
  ghost predicate AtPlaceholderClose(u: JavaScan)
  {
    Inv(u) && u.sc.More() && u.sc.state == PLACEHOLDER && u.sc.Ch() == '}'
  }

  /** The scan is in a placeholder whose digits are followed by something else. */
  ghost predicate AtPlaceholderUndo(u: JavaScan)
  {
    Inv(u) && u.sc.More() && u.sc.state == PLACEHOLDER && !IsADigit(u.sc.Ch()) && u.sc.Ch() != '}'
  }

  ghost predicate OpensPlaceholder(f: JavaScan -> JavaScan)
  {
    forall u {:trigger AtPlaceholderOpen(u)} :: AtPlaceholderOpen(u) ==>
      Inv(f(u)) && f(u).sc == u.sc.SetState(PLACEHOLDER).Forward() && f(u).esc.outerState == u.sc.state
  }

  ghost predicate TakesPlaceholderDigits(f: JavaScan -> JavaScan)
  {
    forall u {:trigger AtPlaceholderDigit(u)} :: AtPlaceholderDigit(u) ==>
      Inv(f(u)) && f(u).sc == u.sc.Forward() && f(u).esc == u.esc
  }

  ghost predicate ClosesPlaceholder(f: JavaScan -> JavaScan)
  {
    forall u {:trigger AtPlaceholderClose(u)} :: AtPlaceholderClose(u) ==>
      f(u).sc == u.sc.Forward().SetState(u.esc.outerState)
  }

  ghost predicate UndoesPlaceholder(f: JavaScan -> JavaScan)
  {
    forall u {:trigger AtPlaceholderUndo(u)} :: AtPlaceholderUndo(u) ==>
      f(u).sc == u.sc.Rewind().ChangeState(u.esc.outerState).Forward().SetState(u.esc.outerState)
  }

  lemma StepOpensPlaceholder(env: JavaEnv)
    ensures OpensPlaceholder(StepFn(env))
  {
    forall u | AtPlaceholderOpen(u)
      ensures Inv(StepFn(env)(u)) && StepFn(env)(u).sc == u.sc.SetState(PLACEHOLDER).Forward()
              && StepFn(env)(u).esc.outerState == u.sc.state
    {
      StepAtBrace(u, env);
    }
  }

  lemma StepTakesPlaceholderDigits(env: JavaEnv)
    ensures TakesPlaceholderDigits(StepFn(env))
  {
    forall u | AtPlaceholderDigit(u)
      ensures Inv(StepFn(env)(u)) && StepFn(env)(u).sc == u.sc.Forward() && StepFn(env)(u).esc == u.esc
    {
      StepInPlaceholder(u, env);
    }
  }

  lemma StepClosesPlaceholder(env: JavaEnv)
    ensures ClosesPlaceholder(StepFn(env))
  {
    forall u | AtPlaceholderClose(u)
      ensures StepFn(env)(u).sc == u.sc.Forward().SetState(u.esc.outerState)
    {
      StepInPlaceholder(u, env);
    }
  }

  lemma StepUndoesPlaceholder(env: JavaEnv)
    ensures UndoesPlaceholder(StepFn(env))
  {
    forall u | AtPlaceholderUndo(u)
      ensures StepFn(env)(u).sc == u.sc.Rewind().ChangeState(u.esc.outerState).Forward().SetState(u.esc.outerState)
    {
      StepInPlaceholder(u, env);
    }
  }

  /** u is inside the placeholder opened at s's brace, j digits after the brace. */
  ghost predicate PlaceholderAt(s: JavaScan, u: JavaScan, j: nat)
  {
    Inv(u) && s.sc.segStart <= s.sc.pos && u.esc.outerState == s.sc.state
    && u.sc == s.sc.(styles := s.sc.styles + Fill(s.sc.state, s.sc.pos - s.sc.segStart), segStart := s.sc.pos,
                     state := PLACEHOLDER, pos := s.sc.pos + 1 + j)
  }

  /** Inside a placeholder the digits are taken in one per iteration. */
  lemma {:induction false} PlaceholderDigitsIterate(f: JavaScan -> JavaScan, s: JavaScan, j: nat, left: nat)
    requires TakesPlaceholderDigits(f)
    requires s.sc.pos + 1 + j + left < s.sc.endPos && left == DigitRun(s.sc.doc, s.sc.pos + 1 + j)
    requires PlaceholderAt(s, Iterate(f, s, 1 + j), j)
    ensures PlaceholderAt(s, Iterate(f, s, 1 + j + left), j + left)
    decreases left
  {
    if left > 0 {
      var u := Iterate(f, s, 1 + j);
      assert IsADigit(CharAt(s.sc.doc, s.sc.pos + 1 + j));
      PlaceholderDigitStep(f, s, u, j);
      IterateLast(f, s, 1 + j);
      assert Iterate(f, s, 1 + (j + 1)) == f(u);
      assert left - 1 == DigitRun(s.sc.doc, s.sc.pos + 1 + (j + 1));
      PlaceholderDigitsIterate(f, s, j + 1, left - 1);
      assert 1 + (j + 1) + (left - 1) == 1 + j + left;
    }
  }

  /** One digit of a placeholder. */
  lemma PlaceholderDigitStep(f: JavaScan -> JavaScan, s: JavaScan, u: JavaScan, j: nat)
    requires TakesPlaceholderDigits(f) && PlaceholderAt(s, u, j)
    requires s.sc.pos + 1 + j < s.sc.endPos && IsADigit(CharAt(s.sc.doc, s.sc.pos + 1 + j))
    ensures PlaceholderAt(s, f(u), j + 1)
  {
    assert AtPlaceholderDigit(u);
  }

  lemma PlaceholderClosedGlue(s: JavaScan, u: JavaScan, v: JavaScan, d: nat)
    requires s.sc.pos + 1 + d < s.sc.endPos && PlaceholderAt(s, u, d)
    requires v.sc == u.sc.Forward().SetState(s.sc.state)
    ensures SpanResumes(s, v, PLACEHOLDER, d + 2)
  {
  }

  lemma PlaceholderUndoneGlue(s: JavaScan, u: JavaScan, v: JavaScan, d: nat)
    requires s.sc.pos + 1 + d < s.sc.endPos && PlaceholderAt(s, u, d)
    requires v.sc == u.sc.Rewind().ChangeState(s.sc.state).Forward().SetState(s.sc.state)
    ensures SpanResumes(s, v, s.sc.state, d + 1)
  {
    assert Fill(s.sc.state, s.sc.pos - s.sc.segStart) + Fill(s.sc.state, d + 1)
        == Fill(s.sc.state, s.sc.pos - s.sc.segStart + d + 1);
  }

  /** The closing brace ends the placeholder. */
  lemma PlaceholderCloseStep(f: JavaScan -> JavaScan, s: JavaScan, u: JavaScan, d: nat)
    requires ClosesPlaceholder(f)
    requires s.sc.pos + 1 + d < s.sc.endPos && PlaceholderAt(s, u, d)
    requires CharAt(s.sc.doc, s.sc.pos + 1 + d) == '}'
    ensures SpanResumes(s, f(u), PLACEHOLDER, d + 2)
  {
    assert AtPlaceholderClose(u);
    PlaceholderClosedGlue(s, u, f(u), d);
  }

  /** Anything else after the digits gives them back to the string. */
  lemma PlaceholderUndoStep(f: JavaScan -> JavaScan, s: JavaScan, u: JavaScan, d: nat)
    requires UndoesPlaceholder(f)
    requires s.sc.pos + 1 + d < s.sc.endPos && PlaceholderAt(s, u, d)
    requires CharAt(s.sc.doc, s.sc.pos + 1 + d) != '}' && !IsADigit(CharAt(s.sc.doc, s.sc.pos + 1 + d))
    ensures SpanResumes(s, f(u), s.sc.state, d + 1)
  {
    assert AtPlaceholderUndo(u);
    PlaceholderUndoneGlue(s, u, f(u), d);
  }

  /** After `{` and its digits the scan is still in the placeholder. */
  lemma PlaceholderDigitsAll(f: JavaScan -> JavaScan, s: JavaScan, d: nat)
    requires OpensPlaceholder(f) && TakesPlaceholderDigits(f) && AtPlaceholderOpen(s)
    requires d == DigitRun(s.sc.doc, s.sc.pos + 1) && s.sc.pos + 1 + d < s.sc.endPos
    ensures PlaceholderAt(s, Iterate(f, s, 1 + d), d)
  {
    assert Iterate(f, s, 1) == f(s);
    assert PlaceholderAt(s, Iterate(f, s, 1 + 0), 0);
    PlaceholderDigitsIterate(f, s, 0, d);
  }


  /** After `{` and its digits, a closing brace makes the whole of it a placeholder. */
  lemma PlaceholderClosedIterate(f: JavaScan -> JavaScan, s: JavaScan, d: nat)
    requires OpensPlaceholder(f) && TakesPlaceholderDigits(f) && ClosesPlaceholder(f) && AtPlaceholderOpen(s)
    requires d == DigitRun(s.sc.doc, s.sc.pos + 1) && s.sc.pos + 1 + d < s.sc.endPos
    requires CharAt(s.sc.doc, s.sc.pos + 1 + d) == '}'
    ensures SpanResumes(s, Iterate(f, s, d + 2), PLACEHOLDER, d + 2)
  {
    PlaceholderDigitsAll(f, s, d);
    var u := Iterate(f, s, 1 + d);
    IterateLast(f, s, 1 + d);
    assert Iterate(f, s, d + 2) == f(u);
    PlaceholderCloseStep(f, s, u, d);
  }
  lemma PlaceholderClosedAt(f: JavaScan -> JavaScan, s: JavaScan)
    requires OpensPlaceholder(f) && TakesPlaceholderDigits(f) && ClosesPlaceholder(f) && AtPlaceholderOpen(s)
    requires s.sc.pos + 1 + DigitRun(s.sc.doc, s.sc.pos + 1) < s.sc.endPos
    requires CharAt(s.sc.doc, s.sc.pos + 1 + DigitRun(s.sc.doc, s.sc.pos + 1)) == '}'
    ensures SpanResumes(s, Iterate(f, s, DigitRun(s.sc.doc, s.sc.pos + 1) + 2), PLACEHOLDER, DigitRun(s.sc.doc, s.sc.pos + 1) + 2)
  {
    PlaceholderClosedIterate(f, s, DigitRun(s.sc.doc, s.sc.pos + 1));
  }



  /** After `{` and its digits, anything but a closing brace gives the brace and
      digits back to the string. */
  lemma PlaceholderUndoneIterate(f: JavaScan -> JavaScan, s: JavaScan, d: nat)
    requires OpensPlaceholder(f) && TakesPlaceholderDigits(f) && UndoesPlaceholder(f) && AtPlaceholderOpen(s)
    requires d == DigitRun(s.sc.doc, s.sc.pos + 1) && s.sc.pos + 1 + d < s.sc.endPos
    requires CharAt(s.sc.doc, s.sc.pos + 1 + d) != '}'
    ensures SpanResumes(s, Iterate(f, s, d + 2), s.sc.state, d + 1)
  {
    PlaceholderDigitsAll(f, s, d);
    var u := Iterate(f, s, 1 + d);
    IterateLast(f, s, 1 + d);
    assert Iterate(f, s, d + 2) == f(u);
    PlaceholderUndoStep(f, s, u, d);
  }
  lemma PlaceholderUndoneAt(f: JavaScan -> JavaScan, s: JavaScan)
    requires OpensPlaceholder(f) && TakesPlaceholderDigits(f) && UndoesPlaceholder(f) && AtPlaceholderOpen(s)
    requires s.sc.pos + 1 + DigitRun(s.sc.doc, s.sc.pos + 1) < s.sc.endPos
    requires CharAt(s.sc.doc, s.sc.pos + 1 + DigitRun(s.sc.doc, s.sc.pos + 1)) != '}'
    ensures SpanResumes(s, Iterate(f, s, DigitRun(s.sc.doc, s.sc.pos + 1) + 2), s.sc.state, DigitRun(s.sc.doc, s.sc.pos + 1) + 1)
  {
    PlaceholderUndoneIterate(f, s, DigitRun(s.sc.doc, s.sc.pos + 1));
  }



  /** `{digits}` in a string (not a character literal) is one placeholder, brace to brace. */
  lemma PlaceholderSpan(s: JavaScan, env: JavaEnv)
    requires Inv(s) && IsStringStyle(s.sc.state) && s.sc.state != CHARACTER
    requires !(s.sc.AtLineStart() && IsSingleLineString(s.sc.state))
    requires s.sc.Ch() == '{' && IsADigit(s.sc.ChNext())
    requires s.sc.pos + 1 + DigitRun(s.sc.doc, s.sc.pos + 1) < s.sc.endPos
    requires CharAt(s.sc.doc, s.sc.pos + 1 + DigitRun(s.sc.doc, s.sc.pos + 1)) == '}'
    ensures SpanResumes(s, Steps(s, env, DigitRun(s.sc.doc, s.sc.pos + 1) + 2), PLACEHOLDER,
                        DigitRun(s.sc.doc, s.sc.pos + 1) + 2)
  {
    StepOpensPlaceholder(env);
    StepTakesPlaceholderDigits(env);
    StepClosesPlaceholder(env);
    PlaceholderClosedAt(StepFn(env), s);
  }

  /** A brace and digits without the closing brace stay part of the string,
      which resumes at the character after the digits. */
  lemma PlaceholderUndone(s: JavaScan, env: JavaEnv)
    requires Inv(s) && IsStringStyle(s.sc.state) && s.sc.state != CHARACTER
    requires !(s.sc.AtLineStart() && IsSingleLineString(s.sc.state))
    requires s.sc.Ch() == '{' && IsADigit(s.sc.ChNext())
    requires s.sc.pos + 1 + DigitRun(s.sc.doc, s.sc.pos + 1) < s.sc.endPos
    requires CharAt(s.sc.doc, s.sc.pos + 1 + DigitRun(s.sc.doc, s.sc.pos + 1)) != '}'
    ensures SpanResumes(s, Steps(s, env, DigitRun(s.sc.doc, s.sc.pos + 1) + 2), s.sc.state,
                        DigitRun(s.sc.doc, s.sc.pos + 1) + 1)
  {
    StepOpensPlaceholder(env);
    StepTakesPlaceholderDigits(env);
    StepUndoesPlaceholder(env);
    PlaceholderUndoneAt(StepFn(env), s);
  }

  /** A format specifier in a string is styled as one and the string resumes after it. */
  lemma FormatSpecifierSpan(s: JavaScan, env: JavaEnv)
    requires Inv(s) && s.sc.More() && IsStringStyle(s.sc.state) && s.sc.state != CHARACTER
    requires !(s.sc.AtLineStart() && IsSingleLineString(s.sc.state))
    requires s.sc.Ch() == '%' && FormatSpecLength(s.sc.doc, s.sc.pos, s.insideUrl) != 0
    requires s.sc.pos + FormatSpecLength(s.sc.doc, s.sc.pos, s.insideUrl) <= s.sc.endPos
    ensures SpanResumes(s, Step(s, env), FORMAT_SPECIFIER, FormatSpecLength(s.sc.doc, s.sc.pos, s.insideUrl))
  {
    StepAtPercent(s, env);
    FormatCaseSpan(s, FormatSpecLength(s.sc.doc, s.sc.pos, s.insideUrl));
  }

  lemma FormatCaseSpan(s: JavaScan, n: nat)
    requires Inv(s) && s.sc.More() && 0 < n && s.sc.pos + n <= s.sc.endPos
    ensures SpanResumes(s, FormatCase(s, n), FORMAT_SPECIFIER, n)
  {
  }

  // ---------------------------------------------------------------------------
  // Words.

  /** An identifier not starting with '@' has just ended. */
  ghost predicate PlainWordEnds(s: JavaScan)
  {
    Inv(s) && s.sc.More() && s.sc.state == IDENTIFIER && !IsIdentifierCharEx(s.sc.Ch())
    && (s.sc.GetCurrent() == [] || s.sc.GetCurrent()[0] != '@')
  }

  /** Where the word's own style stops: seven characters on for the `non` of
      `non-sealed`, the current position otherwise. */
  function WordStop(s: JavaScan, env: JavaEnv): nat
    requires s.sc.Valid()
  {
    if NonSealedAt(s, s.sc.GetCurrent()) && s.sc.GetCurrent() !in env.keywords
    then Min(s.sc.pos + 7, s.sc.endPos) else s.sc.pos
  }

  /** When a word not starting with '@' ends, the classification gives it its
      style up to where the classification stops. */
  lemma WordEndStyles(s: JavaScan, env: JavaEnv)
    requires PlainWordEnds(s)
    ensures ClassifyWord(s, env, s.sc.GetCurrent()).sc.pos == WordStop(s, env)
    ensures WordEnd(s, env).0.sc.styles
            == s.sc.styles + Fill(ClassifyWord(s, env, s.sc.GetCurrent()).sc.state, WordStop(s, env) - s.sc.segStart)
  {
  }

  lemma StylesCarry(x: seq<JavaStyle>, b: JavaScan, r: JavaScan, t: JavaScan)
    requires x == b.sc.styles && Keeps(b, r) && (t == r || Keeps(r, t))
    ensures x <= t.sc.styles
  {
    if t != r {
      PrefixTrans(x, r.sc.styles, t.sc.styles);
    }
  }

  /** The styles a finished word leaves behind when the iteration ends. */
  lemma WordStepStyles(s: JavaScan, env: JavaEnv, st: JavaStyle)
    requires PlainWordEnds(s) && ClassifyWord(s, env, s.sc.GetCurrent()).sc.state == st
    ensures s.sc.styles + Fill(st, WordStop(s, env) - s.sc.segStart) <= Step(s, env).sc.styles
  {
    WordEndStyles(s, env);
    StepAtWordEnd(s, env);
    var b := WordEnd(s, env).0;
    var r := DefaultCase(b).0;
    StylesCarry(s.sc.styles + Fill(st, WordStop(s, env) - s.sc.segStart), b, r, Step(s, env));
  }

  /** The classification of a word in one of the tables is the first table's style. */
  lemma ClassifyTableWord(s: JavaScan, env: JavaEnv, st: JavaStyle)
    requires Inv(s)
    requires TableStyle(env, s.sc.GetCurrent(), NonSealedAt(s, s.sc.GetCurrent())) == Some(st)
    ensures ClassifyWord(s, env, s.sc.GetCurrent()).sc.state == st
  {
  }

  /** The classification of a word in none of the tables: a colon after it
      makes a type (`::`) or a label, a role keyword before it or the role
      heuristics decide, and a dot after it leaves it an identifier. */
  lemma ClassifyUntabledWord(s: JavaScan, env: JavaEnv)
    requires Inv(s)
    requires TableStyle(env, s.sc.GetCurrent(), NonSealedAt(s, s.sc.GetCurrent())) == None
    ensures ClassifyWord(s, env, s.sc.GetCurrent()).sc.state ==
      if s.sc.Ch() == ':' then
        (if s.sc.ChNext() == ':' then CLASS else if IsJumpLabelPrevChar(s.chBefore) then LABEL else s.sc.state)
      else if s.sc.Ch() != '.' then
        (if IsRoleKeyword(s.kwType) then RoleStyle(s.kwType) else IdentifierRole(RoleContextOf(s)))
      else s.sc.state
  {
  }

  /** A finished word that is in one of the tables gets the style of the first
      table it is in; the `non` of `non-sealed` is a keyword together with the
      seven characters after it. */
  lemma WordTableStyle(s: JavaScan, env: JavaEnv, st: JavaStyle)
    requires PlainWordEnds(s)
    requires TableStyle(env, s.sc.GetCurrent(), NonSealedAt(s, s.sc.GetCurrent())) == Some(st)
    ensures s.sc.styles + Fill(st, WordStop(s, env) - s.sc.segStart) <= Step(s, env).sc.styles
  {
    ClassifyTableWord(s, env, st);
    WordStepStyles(s, env, st);
  }

  /** A finished word in no table: a role keyword before it decides its style;
      otherwise the role heuristics do, unless a colon or a dot ends it. */
  lemma WordRoleStyle(s: JavaScan, env: JavaEnv)
    requires PlainWordEnds(s)
    requires TableStyle(env, s.sc.GetCurrent(), NonSealedAt(s, s.sc.GetCurrent())) == None
    requires s.sc.Ch() != ':' && s.sc.Ch() != '.'
    ensures s.sc.styles + Fill(if IsRoleKeyword(s.kwType) then RoleStyle(s.kwType) else IdentifierRole(RoleContextOf(s)),
                               s.sc.pos - s.sc.segStart) <= Step(s, env).sc.styles
  {
    ClassifyUntabledWord(s, env);
    WordStepStyles(s, env, if IsRoleKeyword(s.kwType) then RoleStyle(s.kwType) else IdentifierRole(RoleContextOf(s)));
  }

  /** A finished word followed by `::` is a type; one followed by a single ':'
      after a statement boundary is a label. */
  lemma WordColonStyle(s: JavaScan, env: JavaEnv)
    requires PlainWordEnds(s) && s.sc.Ch() == ':'
    requires TableStyle(env, s.sc.GetCurrent(), NonSealedAt(s, s.sc.GetCurrent())) == None
    ensures s.sc.styles + Fill(if s.sc.ChNext() == ':' then CLASS else if IsJumpLabelPrevChar(s.chBefore) then LABEL else IDENTIFIER,
                               s.sc.pos - s.sc.segStart) <= Step(s, env).sc.styles
  {
    ClassifyUntabledWord(s, env);
    WordStepStyles(s, env, if s.sc.ChNext() == ':' then CLASS else if IsJumpLabelPrevChar(s.chBefore) then LABEL else IDENTIFIER);
  }

  /** `@interface` is a keyword and makes the next identifier an annotation type. */
  lemma AtInterfaceStyle(s: JavaScan, env: JavaEnv)
    requires Inv(s) && s.sc.More() && s.sc.state == IDENTIFIER && !IsIdentifierCharEx(s.sc.Ch())
    requires s.sc.GetCurrent() == "@interface"
    ensures Body(s, env).0.kwType == KwAnnotation
    ensures s.sc.styles + Fill(WORD, s.sc.pos - s.sc.segStart) <= Body(s, env).0.sc.styles
  {
    var a := WordEnd(s, env).0;
    assert Body(s, env) == DefaultCase(a);
    PrefixTrans(s.sc.styles + Fill(WORD, s.sc.pos - s.sc.segStart), a.sc.styles, DefaultCase(a).0.sc.styles);
  }

  /** Any other word starting with '@' becomes an annotation without moving on. */
  lemma AtAnnotationStyle(s: JavaScan, env: JavaEnv)
    requires Inv(s) && s.sc.More() && s.sc.state == IDENTIFIER && !IsIdentifierCharEx(s.sc.Ch())
    requires s.sc.GetCurrent() != [] && s.sc.GetCurrent()[0] == '@' && s.sc.GetCurrent() != "@interface"
    ensures Step(s, env) == s.(sc := s.sc.ChangeState(ANNOTATION))
  {
    assert Body(s, env) == WordEnd(s, env);
    StepIsBody(s, env);
  }

  // ---------------------------------------------------------------------------
  // Per-line state.

  /** A line comment that is the first thing on its line marks the line. */
  lemma LineCommentMarksLine(s: JavaScan, env: JavaEnv)
    requires Inv(s) && s.sc.More() && s.sc.state == DEFAULT && s.sc.Match('/', '/')
    ensures Step(s, env).sc.state == COMMENTLINE
    ensures Step(s, env).lineType == if s.visibleChars == 0 then MaskLineComment else s.lineType
  {
    StepInCode(s, env);
  }

  /** `import` as the first word of its line marks the line (the mark is written
      when the line ends). */
  lemma ImportMarksLine(s: JavaScan, env: JavaEnv)
    requires PlainWordEnds(s)
    requires s.sc.GetCurrent() == "import" && "import" in env.keywords
    requires s.visibleChars == s.sc.LengthCurrent()
    ensures Body(s, env).0.lineType == MaskImport
  {
    BodyAtWordEnd(s, env);
    var b := WordEnd(s, env).0;
    assert b.lineType == MaskImport && b.visibleChars != 0;
  }

  /** The state written at the end of a line carries the template stack: a range
      starting on the next line reads it back (when it is at most three deep). */
  lemma LineStateRoundTrip(s: JavaScan, length: nat, initStyle: JavaStyle, lookback: char)
    requires Inv(s) && s.sc.Ch() == '\n' && |s.nested| <= 3
    requires s.sc.pos + 1 + length <= |s.sc.doc|
    ensures LineOf(s.sc.doc, s.sc.pos + 1) == s.sc.CurrentLine() + 1
    ensures s.sc.CurrentLine() in Tail(s).lineStates
    ensures InitScan(s.sc.doc, s.sc.pos + 1, length, initStyle, Tail(s).lineStates[s.sc.CurrentLine()], lookback).nested
            == s.nested
  {
    TailWritesLineState(s);
    RestartRestoresNested(s.sc.doc, s.sc.pos + 1, length, initStyle, s.lineType, s.nested, lookback);
  }

  /** The state written at the end of a line carries its line type, which the
      folder reads back. */
  lemma LineStateFoldBits(s: JavaScan)
    requires Inv(s) && s.sc.Ch() == '\n'
    ensures s.sc.CurrentLine() in Tail(s).lineStates
    ensures FoldLineStateOf(Tail(s).lineStates[s.sc.CurrentLine()]).lineComment
            == (if s.lineType == MaskLineComment then 1 else 0)
    ensures FoldLineStateOf(Tail(s).lineStates[s.sc.CurrentLine()]).packageImport
            == (if s.lineType == MaskImport then 1 else 0)
  {
    TailWritesLineState(s);
    FoldLineStateOfJavaLineState(s.lineType, s.nested);
  }

  /** At a line feed the step writes the line type and the template stack for
      the current line. */
  lemma TailWritesLineState(s: JavaScan)
    requires Inv(s) && s.sc.Ch() == '\n'
    ensures LineOf(s.sc.doc, s.sc.pos + 1) == s.sc.CurrentLine() + 1
    ensures s.sc.CurrentLine() in Tail(s).lineStates
    ensures Tail(s).lineStates[s.sc.CurrentLine()] == JavaLineState(s.lineType, s.nested)
  {
  }

  /** A character literal, string or single-line template ends at the end of its
      line: the text before the line start keeps the string's style. */
  lemma SingleLineStringEnds(s: JavaScan, env: JavaEnv)
    requires Inv(s) && s.sc.More() && IsSingleLineString(s.sc.state) && s.sc.AtLineStart()
    ensures s.sc.styles + Fill(s.sc.state, s.sc.pos - s.sc.segStart) <= Step(s, env).sc.styles
  {
    var a := OperatorCase(s);
    assert Body(s, env) == DefaultCase(a);
    StepIsBody(s, env);
    PrefixTrans(a.sc.styles, DefaultCase(a).0.sc.styles, Step(s, env).sc.styles);
  }

  /** A scan that starts on a later line restores the stack written for the line
      before it. */
  lemma RestartRestoresNested(doc: seq<char>, startPos: nat, length: nat, initStyle: JavaStyle,
                              lineType: int, ns: seq<JavaStyle>, lookback: char)
    requires startPos + length <= |doc| && LineOf(doc, startPos) > 0
    requires 0 <= lineType < 256 && |ns| <= 3 && forall i :: 0 <= i < |ns| ==> IsNestedEntry(ns[i])
    ensures InitScan(doc, startPos, length, initStyle, JavaLineState(lineType, ns), lookback).nested == ns
  {
    RestoreJavaLineState(lineType, ns);
  }

  // ---------------------------------------------------------------------------
  // Into the output.

  /** Whatever a number of iterations styles is part of the final styles. */
  lemma StylesKept(s: JavaScan, env: JavaEnv, n: nat)
    requires Inv(s)
    ensures Steps(s, env, n).sc.styles <= Run(s, env).sc.Complete().styles
  {
    RunSteps(s, env, n);
    var t := Run(s, env);
    PrefixAppend(t.sc.styles, Fill(t.sc.state, t.sc.pos - t.sc.segStart));
    PrefixTrans(Steps(s, env, n).sc.styles, t.sc.styles, t.sc.Complete().styles);
  }
}
