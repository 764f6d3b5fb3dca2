/** The Java colouriser (LexJava.cxx, ColouriseJavaDoc).

    The lexer is one loop over the range.  Each iteration does the work of the
    current state, may `continue` (go round again without the common tail), and
    otherwise runs the dispatch for the default state and the tail that counts
    visible characters, writes the line state at the end of a line and moves
    forward.  `Step` is one iteration as a function of all the loop's variables,
    `Run` iterates it to the end of the range, and the method `ColouriseJavaDoc`
    is the loop itself, proved to compute what `Run` computes. */
module JavaLexer {
  import opened CharClass
  import opened StyleContext
  import opened JavaStyles
  import opened JavaEscape
  import opened JavaFormat
  import opened JavaKeywords

  /** The loop's variables.  lineStates holds the line states written so far. */
  datatype JavaScan = JavaScan(
    sc: Cursor<JavaStyle>,
    esc: EscapeSeq,
    nested: seq<JavaStyle>,
    lineType: int,
    insideUrl: bool,
    kwType: KeywordType,
    chBeforeIdentifier: char,
    visibleChars: int,
    chBefore: char,
    chPrevNonWhite: char,
    docTag: DocTagState,
    lineStates: map<nat, int>)

  /** What every iteration keeps: a well-formed cursor, an escape that returns to a
      string (or to the default state), a template stack of templates and braces,
      and a line type that is one of the two bits or neither. */
  ghost predicate Inv(s: JavaScan)
  {
    s.sc.Valid() && IsEscapeOuter(s.esc.outerState)
    && (forall i :: 0 <= i < |s.nested| ==> IsNestedEntry(s.nested[i]))
    && (s.lineType == 0 || s.lineType == MaskLineComment || s.lineType == MaskImport)
  }

  /** t is a later point of the same scan: same range, not behind, and the styles
      already given are kept. */
  ghost predicate Keeps(s: JavaScan, t: JavaScan)
  {
    Inv(t) && t.sc.doc == s.sc.doc && t.sc.startPos == s.sc.startPos && t.sc.endPos == s.sc.endPos
    && s.sc.pos <= t.sc.pos && s.sc.styles <= t.sc.styles
  }

  /** States that are left without moving, by a `continue` to their outer state. */
  function Rank(st: JavaStyle): nat
  {
    if st.IDENTIFIER? || st.ESCAPECHAR? || st.PLACEHOLDER? || st.COMMENTTAGAT? || st.COMMENTTAGHTML? then 2 else 1
  }

  /** A `continue` either moves forward or leaves one of the states above. */
  ghost predicate Progress(s: JavaScan, t: JavaScan)
  {
    t.sc.pos > s.sc.pos || Rank(t.sc.state) < Rank(s.sc.state)
  }

  lemma PrefixAppend<T>(a: seq<T>, b: seq<T>)
    ensures a <= a + b
  {
    assert (a + b)[..|a|] == a;
  }

  /** SetState keeps the styles given so far. */
  lemma SetStateKeeps(c: Cursor<JavaStyle>, st: JavaStyle)
    requires c.Valid()
    ensures c.styles <= c.SetState(st).styles
  {
    PrefixAppend(c.styles, Fill(c.state, c.pos - c.segStart));
  }

  // ---------------------------------------------------------------------------
  // The work of each state.

  function OperatorCase(s: JavaScan): (t: JavaScan)
    requires Inv(s)
    ensures Keeps(s, t) && t.sc.state == DEFAULT
  {
    SetStateKeeps(s.sc, DEFAULT);
    s.(sc := s.sc.SetState(DEFAULT))
  }

  function NumberCase(s: JavaScan): (t: JavaScan)
    requires Inv(s)
    ensures Keeps(s, t)
  {
    if !IsDecimalNumber(s.sc.ChPrev(), s.sc.Ch(), s.sc.ChNext()) then OperatorCase(s) else s
  }

  /** The context the role heuristics see when an identifier ends. */
  function RoleContextOf(s: JavaScan): RoleContext
  {
    RoleContext(s.sc.Ch(), s.sc.ChNext(), s.sc.GetDocNextChar(s.sc.Ch() == ')'),
                s.chBefore, s.chBeforeIdentifier, s.kwType)
  }

  /** Whether the identifier `non` is the first half of `non-sealed`. */
  predicate NonSealedAt(s: JavaScan, w: string)
    requires s.sc.Valid()
  {
    s.sc.Match('-', 's') && w == "non"
    && MatchSealed(s.sc.doc, s.sc.pos + 2, NextLineStart(s.sc.doc, s.sc.pos))
  }

  /** The style a finished identifier w gets, as the ladder of tables and then the
      role heuristics decide it, with the keyword bookkeeping. */
  function ClassifyWord(s: JavaScan, env: JavaEnv, w: string): (t: JavaScan)
    requires Inv(s)
    ensures Inv(t) && t.sc == s.sc.(state := t.sc.state, pos := t.sc.pos)
    ensures t.sc.pos == if NonSealedAt(s, w) && w !in env.keywords then Min(s.sc.pos + 7, s.sc.endPos) else s.sc.pos
  {
    var sc := s.sc;
    if w in env.keywords then
      var lt := if w == "import" && s.visibleChars == sc.LengthCurrent() then MaskImport else s.lineType;
      var k0 := KeywordTypeAfter(w, s.kwType);
      var k := if IsRoleKeyword(k0) && !IsIdentifierStartEx(sc.GetDocNextChar(false)) then KwNone else k0;
      s.(sc := sc.ChangeState(WORD), lineType := lt, kwType := k)
    else if NonSealedAt(s, w) then s.(sc := sc.ChangeState(WORD).ForwardBy(7))
    else if w in env.types then s.(sc := sc.ChangeState(WORD2))
    else if w in env.directives then s.(sc := sc.ChangeState(DIRECTIVE))
    else if w in env.classes then s.(sc := sc.ChangeState(CLASS))
    else if w in env.interfaces then s.(sc := sc.ChangeState(INTERFACE))
    else if w in env.enums then s.(sc := sc.ChangeState(ENUM))
    else if w in env.constants then s.(sc := sc.ChangeState(CONSTANT))
    else if sc.Ch() == ':' then
      if sc.ChNext() == ':' then s.(sc := sc.ChangeState(CLASS))
      else if IsJumpLabelPrevChar(s.chBefore) then s.(sc := sc.ChangeState(LABEL))
      else s
    else if sc.Ch() != '.' then
      if IsRoleKeyword(s.kwType) then s.(sc := sc.ChangeState(RoleStyle(s.kwType)))
      else s.(sc := sc.ChangeState(IdentifierRole(RoleContextOf(s))))
    else s
  }

  /** An identifier has ended (the current character does not continue it). */
  function WordEnd(s: JavaScan, env: JavaEnv): (r: (JavaScan, bool))
    requires Inv(s) && s.sc.state == IDENTIFIER
    ensures Keeps(s, r.0) && (r.1 ==> Progress(s, r.0))
  {
    var w := s.sc.GetCurrent();
    if |w| > 0 && w[0] == '@' then AnnotationEnd(s) else (PlainWordEnd(s, env), false)
  }

  /** A word starting with '@': `@interface` is a keyword, anything else an annotation. */
  function AnnotationEnd(s: JavaScan): (r: (JavaScan, bool))
    requires Inv(s) && s.sc.state == IDENTIFIER
    ensures Keeps(s, r.0) && (r.1 ==> Progress(s, r.0))
  {
    if s.sc.GetCurrent() == "@interface" then
      SetStateKeeps(s.sc.ChangeState(WORD), DEFAULT);
      (s.(sc := s.sc.ChangeState(WORD).SetState(DEFAULT), kwType := KwAnnotation), false)
    else (s.(sc := s.sc.ChangeState(ANNOTATION)), true)
  }

  /** Any other word is classified and closed. */
  function PlainWordEnd(s: JavaScan, env: JavaEnv): (t: JavaScan)
    requires Inv(s) && s.sc.state == IDENTIFIER
    ensures Keeps(s, t)
  {
    var t := ClassifyWord(s, env, s.sc.GetCurrent());
    var t2 := if t.sc.state != WORD && t.sc.Ch() != '.' then t.(kwType := KwNone) else t;
    SetStateKeeps(t2.sc, DEFAULT);
    t2.(sc := t2.sc.SetState(DEFAULT))
  }

  function IdentifierCase(s: JavaScan, env: JavaEnv): (r: (JavaScan, bool))
    requires Inv(s) && s.sc.More() && (s.sc.state == IDENTIFIER || s.sc.state == ANNOTATION)
    ensures Keeps(s, r.0) && (r.1 ==> Progress(s, r.0))
  {
    if IsIdentifierCharEx(s.sc.Ch()) then (s, false)
    else if s.sc.state == ANNOTATION then
      if s.sc.Ch() == '.' || s.sc.Ch() == '$' then
        var c1 := s.sc.SetState(OPERATOR);
        SetStateKeeps(s.sc, OPERATOR);
        SetStateKeeps(c1.Forward(), ANNOTATION);
        (s.(sc := c1.ForwardSetState(ANNOTATION)), true)
      else (OperatorCase(s), false)
    else WordEnd(s, env)
  }

  function CommentLineCase(s: JavaScan): (t: JavaScan)
    requires Inv(s)
    ensures Keeps(s, t)
  {
    if s.sc.AtLineStart() then OperatorCase(s) else s
  }

  /** `*` `/` ends a block comment; the two characters stay in the comment. */
  function CloseComment(s: JavaScan): (t: JavaScan)
    requires Inv(s)
    ensures Keeps(s, t) && t.sc.state == DEFAULT
  {
    SetStateKeeps(s.sc.Forward().Forward(), DEFAULT);
    s.(sc := s.sc.Forward().ForwardSetState(DEFAULT))
  }

  function CommentBlockCase(s: JavaScan): (t: JavaScan)
    requires Inv(s)
    ensures Keeps(s, t)
  {
    if s.sc.Match('*', '/') then CloseComment(s) else s
  }

  /** The end of a documentation tag opened on an earlier iteration. */
  function DocTagClose(s: JavaScan): (t: JavaScan)
    requires Inv(s)
    ensures Keeps(s, t) && t.sc.state == s.sc.state
  {
    match s.docTag
    case TagAt => s.(docTag := TagNone)
    case TagInlineAt =>
      if s.sc.Ch() == '}' then
        var c1 := s.sc.SetState(COMMENTTAGAT);
        SetStateKeeps(s.sc, COMMENTTAGAT);
        SetStateKeeps(c1.Forward(), s.sc.state);
        s.(docTag := TagNone, sc := c1.ForwardSetState(s.sc.state))
      else s
    case TagOpen => HtmlTagClose(s)
    case TagClose => HtmlTagClose(s)
    case TagNone => s
  }

  /** `>` or `/>` ends an HTML tag in a documentation comment. */
  function HtmlTagClose(s: JavaScan): (t: JavaScan)
    requires Inv(s)
    ensures Keeps(s, t) && t.sc.state == s.sc.state
  {
    if s.sc.Match('/', '>') || s.sc.Ch() == '>' then
      var c1 := s.sc.SetState(COMMENTTAGHTML).ForwardBy(if s.sc.Ch() == '/' then 2 else 1);
      SetStateKeeps(s.sc, COMMENTTAGHTML);
      SetStateKeeps(c1, s.sc.state);
      s.(docTag := TagNone, sc := c1.SetState(s.sc.state))
    else s
  }

  function DocCommentCase(s: JavaScan): (t: JavaScan)
    requires Inv(s) && s.sc.state == COMMENTBLOCKDOC
    ensures Keeps(s, t)
  {
    var t := DocTagClose(s);
    var sc := t.sc;
    SetStateKeeps(sc, COMMENTTAGAT);
    SetStateKeeps(sc, COMMENTTAGHTML);
    if sc.Match('*', '/') then CloseComment(t)
    else if sc.Ch() == '@' && IsAlpha(sc.ChNext()) && IsCommentTagPrev(sc.ChPrev()) then
      t.(docTag := TagAt, sc := sc.SetState(COMMENTTAGAT))
    else if sc.Match('{', '@') && IsAlpha(sc.GetRelative(2)) then
      t.(docTag := TagInlineAt, sc := sc.SetState(COMMENTTAGAT).Forward())
    else if sc.Ch() == '<' then
      if IsAlpha(sc.ChNext()) then t.(docTag := TagOpen, sc := sc.SetState(COMMENTTAGHTML))
      else if sc.ChNext() == '/' && IsAlpha(sc.GetRelative(2)) then
        t.(docTag := TagClose, sc := sc.SetState(COMMENTTAGHTML).Forward())
      else t
    else t
  }

  function TagCase(s: JavaScan): (r: (JavaScan, bool))
    requires Inv(s) && (s.sc.state == COMMENTTAGAT || s.sc.state == COMMENTTAGHTML)
    ensures Keeps(s, r.0) && (r.1 ==> Progress(s, r.0))
  {
    var ch := s.sc.Ch();
    if !(IsIdentifierChar(ch) || ch == '-' || ch == ':') then
      SetStateKeeps(s.sc, COMMENTBLOCKDOC);
      (s.(sc := s.sc.SetState(COMMENTBLOCKDOC)), true)
    else (s, false)
  }

  /** A format specifier inside a string: its characters get FORMAT_SPECIFIER and
      the string resumes after it. */
  function FormatCase(s: JavaScan, n: nat): (t: JavaScan)
    requires Inv(s) && s.sc.More() && n > 0
    ensures Keeps(s, t) && t.sc.pos > s.sc.pos
  {
    var st := s.sc.state;
    var c1 := s.sc.SetState(FORMAT_SPECIFIER).ForwardBy(n);
    SetStateKeeps(s.sc, FORMAT_SPECIFIER);
    SetStateKeeps(c1, st);
    s.(sc := c1.SetState(st))
  }

  /** The closing quote (three of them for a text block). */
  function CloseString(s: JavaScan): (t: JavaScan)
    requires Inv(s)
    ensures Keeps(s, t) && t.sc.state == DEFAULT
  {
    var c1 := if !IsSingleLineString(s.sc.state) then s.sc.ForwardBy(2) else s.sc;
    SetStateKeeps(c1.Forward(), DEFAULT);
    s.(sc := c1.ForwardSetState(DEFAULT))
  }

  /** A backslash inside a string: an interpolation `\{` in a template, or an escape. */
  function BackslashCase(s: JavaScan): (t: JavaScan)
    requires Inv(s) && IsStringStyle(s.sc.state)
    ensures Keeps(s, t)
  {
    var sc := s.sc;
    var st := sc.state;
    SetStateKeeps(sc, OPERATOR2);
    SetStateKeeps(sc, ESCAPECHAR);
    if sc.ChNext() == '{' && IsTemplate(st) then
      s.(nested := s.nested + [st], sc := sc.SetState(OPERATOR2).Forward())
    else
      var (ok, e) := ResetEscape(s.esc, st, sc.ChNext());
      if ok then s.(esc := e, sc := sc.SetState(ESCAPECHAR).Forward()) else s
  }

  function StringCase(s: JavaScan): (r: (JavaScan, bool))
    requires Inv(s) && s.sc.More() && IsStringStyle(s.sc.state)
    ensures Keeps(s, r.0) && (r.1 ==> Progress(s, r.0))
  {
    var sc := s.sc;
    var st := sc.state;
    var ch := sc.Ch();
    if sc.AtLineStart() && IsSingleLineString(st) then (OperatorCase(s), false)
    else if ch == '\\' then (BackslashCase(s), false)
    else if ch == '\'' && st == CHARACTER then
      SetStateKeeps(sc.Forward(), DEFAULT);
      (s.(sc := sc.ForwardSetState(DEFAULT)), false)
    else if st != CHARACTER then
      if ch == '%' then
        var n := FormatSpecLength(sc.doc, sc.pos, s.insideUrl);
        if n != 0 then (FormatCase(s, n), true) else (s, false)
      else if ch == '{' then
        SetStateKeeps(sc, PLACEHOLDER);
        if IsADigit(sc.ChNext()) then (s.(esc := s.esc.(outerState := st), sc := sc.SetState(PLACEHOLDER)), false)
        else (s, false)
      else if ch == '"' && (IsSingleLineString(st) || sc.MatchNext('"', '"')) then (CloseString(s), false)
      else if sc.Match3(':', '/', '/') && IsLowerCase(sc.ChPrev()) then (s.(insideUrl := true), false)
      else if s.insideUrl && IsInvalidUrlChar(ch) then (s.(insideUrl := false), false)
      else (s, false)
    else (s, false)
  }

  function EscapeCase(s: JavaScan): (r: (JavaScan, bool))
    requires Inv(s) && s.sc.state == ESCAPECHAR
    ensures Keeps(s, r.0) && (r.1 ==> Progress(s, r.0))
  {
    var (end, e) := EscapeEnd(s.esc, s.sc.Ch());
    SetStateKeeps(s.sc, e.outerState);
    if end then (s.(esc := e, sc := s.sc.SetState(e.outerState)), true)
    else (s.(esc := e), false)
  }

  /** The end of a `{digits` placeholder: `}` closes it; anything else undoes it,
      giving the brace and digits back to the string. */
  function PlaceholderCase(s: JavaScan): (r: (JavaScan, bool))
    requires Inv(s) && s.sc.More() && s.sc.state == PLACEHOLDER
    ensures Keeps(s, r.0) && (r.1 ==> Progress(s, r.0))
  {
    if !IsADigit(s.sc.Ch()) then
      var outer := s.esc.outerState;
      var c1 := if s.sc.Ch() != '}' then s.sc.Rewind().ChangeState(outer) else s.sc;
      SetStateKeeps(c1.Forward(), outer);
      (s.(sc := c1.Forward().SetState(outer)), true)
    else (s, false)
  }

  // ---------------------------------------------------------------------------
  // The dispatch in the default state.

  /** A string opens at a quote; after a dot it is a template, and `"""` opens a text block. */
  function OpenString(s: JavaScan): (t: JavaScan)
    requires Inv(s)
    ensures Keeps(s, t) && IsStringStyle(t.sc.state)
    ensures t.esc == s.esc && t.kwType == s.kwType && t.lineStates == s.lineStates && t.lineType == s.lineType
  {
    var sc := s.sc;
    var triple := sc.MatchNext('"', '"');
    var dotted := sc.ChPrev() == '.';
    var st := if triple then (if dotted then TRIPLE_TEMPLATE else TRIPLE_STRING) else (if dotted then TEMPLATE else STRING);
    SetStateKeeps(sc, st);
    s.(insideUrl := false, sc := if triple then sc.SetState(st).ForwardBy(2) else sc.SetState(st))
  }

  /** An identifier starts: remember the last non-blank characters before it. */
  function OpenIdentifier(s: JavaScan): (t: JavaScan)
    requires Inv(s)
    ensures Keeps(s, t) && t.sc.state == IDENTIFIER
    ensures t.esc == s.esc && t.kwType == s.kwType && t.lineStates == s.lineStates && t.lineType == s.lineType
  {
    SetStateKeeps(s.sc, IDENTIFIER);
    s.(chBefore := s.chPrevNonWhite,
       chBeforeIdentifier := if s.chPrevNonWhite != '.' then s.chPrevNonWhite else s.chBeforeIdentifier,
       sc := s.sc.SetState(IDENTIFIER))
  }

  /** An operator; inside an interpolation a brace opens a nested block and the
      closing brace of the interpolation returns to the template. */
  function OperatorStart(s: JavaScan): (r: (JavaScan, bool))
    requires Inv(s)
    ensures Keeps(s, r.0) && (r.1 ==> r.0.sc.pos > s.sc.pos || s.sc.pos == s.sc.endPos)
    ensures r.0.esc == s.esc && r.0.kwType == s.kwType && r.0.lineStates == s.lineStates && r.0.lineType == s.lineType
  {
    var sc := s.sc;
    SetStateKeeps(sc, OPERATOR);
    if s.nested == [] then (s.(sc := sc.SetState(OPERATOR)), false)
    else
      var c1 := sc.SetState(OPERATOR).ChangeState(OPERATOR2);
      if sc.Ch() == '{' then (s.(sc := c1, nested := s.nested + [DEFAULT]), false)
      else if sc.Ch() == '}' then
        var outer := s.nested[|s.nested| - 1];
        SetStateKeeps(c1.Forward(), outer);
        (s.(sc := c1.ForwardSetState(outer), nested := s.nested[..|s.nested| - 1]), true)
      else (s.(sc := c1), false)
  }

  /** The dispatch in the default state outside comments: strings, numbers,
      identifiers, annotations and operators. */
  function CodeStart(s: JavaScan): (r: (JavaScan, bool))
    requires Inv(s) && s.sc.state == DEFAULT
    ensures Keeps(s, r.0) && (r.1 ==> r.0.sc.pos > s.sc.pos || s.sc.pos == s.sc.endPos)
    ensures r.0.esc == s.esc && r.0.kwType == s.kwType && r.0.lineStates == s.lineStates && r.0.lineType == s.lineType
  {
    var sc := s.sc;
    var ch := sc.Ch();
    SetStateKeeps(sc, CHARACTER);
    SetStateKeeps(sc, NUMBER);
    SetStateKeeps(sc, ANNOTATION);
    if ch == '"' then (OpenString(s), false)
    else if ch == '\'' then (s.(sc := sc.SetState(CHARACTER)), false)
    else if IsNumberStart(ch, sc.ChNext()) then (s.(sc := sc.SetState(NUMBER)), false)
    else if IsIdentifierStartEx(ch) || sc.Match('@', 'i') then (OpenIdentifier(s), false)
    else if ch == '@' && IsIdentifierStartEx(sc.ChNext()) then (s.(sc := sc.SetState(ANNOTATION)), false)
    else if IsAGraphic(ch) && ch != '\\' then OperatorStart(s)
    else (s, false)
  }

  function DefaultCase(s: JavaScan): (r: (JavaScan, bool))
    requires Inv(s) && s.sc.state == DEFAULT
    ensures Keeps(s, r.0) && (r.1 ==> r.0.sc.pos > s.sc.pos || s.sc.pos == s.sc.endPos)
    ensures r.0.esc == s.esc && r.0.kwType == s.kwType && r.0.lineStates == s.lineStates
    ensures r.0.lineType == if s.sc.Match('/', '/') && s.visibleChars == 0 then MaskLineComment else s.lineType
  {
    var sc := s.sc;
    SetStateKeeps(sc, COMMENTLINE);
    SetStateKeeps(sc, COMMENTBLOCK);
    if sc.Match('/', '/') then
      (s.(sc := sc.SetState(COMMENTLINE), lineType := if s.visibleChars == 0 then MaskLineComment else s.lineType), false)
    else if sc.Match('/', '*') then
      var c1 := sc.SetState(COMMENTBLOCK).ForwardBy(2);
      var c2 := if c1.Ch() == '*' && c1.ChNext() != '*' then c1.ChangeState(COMMENTBLOCKDOC) else c1;
      (s.(docTag := TagNone, sc := c2), true)
    else CodeStart(s)
  }

  // ---------------------------------------------------------------------------
  // One iteration.

  /** The case labels of the loop's switch; states without a case of their own fall through. */
  datatype Branch = OperatorBranch | NumberBranch | WordBranch | LineCommentBranch | BlockCommentBranch
                  | DocCommentBranch | DocTagBranch | StringBranch | EscapeBranch | PlaceholderBranch | NoBranch

  function BranchOf(st: JavaStyle): (b: Branch)
    ensures b == StringBranch <==> IsStringStyle(st)
    ensures b == OperatorBranch <==> st == OPERATOR || st == OPERATOR2
    ensures b == WordBranch <==> st == IDENTIFIER || st == ANNOTATION
    ensures b == DocTagBranch <==> st == COMMENTTAGAT || st == COMMENTTAGHTML
  {
    match st
    case OPERATOR | OPERATOR2 => OperatorBranch
    case NUMBER => NumberBranch
    case IDENTIFIER | ANNOTATION => WordBranch
    case COMMENTLINE => LineCommentBranch
    case COMMENTBLOCK => BlockCommentBranch
    case COMMENTBLOCKDOC => DocCommentBranch
    case COMMENTTAGAT | COMMENTTAGHTML => DocTagBranch
    case CHARACTER | STRING | TEMPLATE | TRIPLE_TEMPLATE | TRIPLE_STRING => StringBranch
    case ESCAPECHAR => EscapeBranch
    case PLACEHOLDER => PlaceholderBranch
    case _ => NoBranch
  }

  /** The switch on the state.  The flag says that the case ends with `continue`. */
  function Switch(s: JavaScan, env: JavaEnv): (r: (JavaScan, bool))
    requires Inv(s) && s.sc.More()
    ensures Keeps(s, r.0) && (r.1 ==> Progress(s, r.0))
  {
    match BranchOf(s.sc.state)
    case OperatorBranch => (OperatorCase(s), false)
    case NumberBranch => (NumberCase(s), false)
    case WordBranch => IdentifierCase(s, env)
    case LineCommentBranch => (CommentLineCase(s), false)
    case BlockCommentBranch => (CommentBlockCase(s), false)
    case DocCommentBranch => (DocCommentCase(s), false)
    case DocTagBranch => TagCase(s)
    case StringBranch => StringCase(s)
    case EscapeBranch => EscapeCase(s)
    case PlaceholderBranch => PlaceholderCase(s)
    case NoBranch => (s, false)
  }

  /** The switch, then the default dispatch when the state is (now) DEFAULT. */
  function Body(s: JavaScan, env: JavaEnv): (r: (JavaScan, bool))
    requires Inv(s) && s.sc.More()
    ensures Keeps(s, r.0) && (r.1 ==> Progress(s, r.0))
  {
    var r1 := Switch(s, env);
    if !r1.1 && r1.0.sc.state == DEFAULT then DefaultCase(r1.0) else r1
  }

  /** The common tail: count a visible character, remember the last one outside
      comments, write the line state at the end of a line, and move forward. */
  function Tail(s: JavaScan): (t: JavaScan)
    requires Inv(s)
    ensures Keeps(s, t) && t.sc == s.sc.Forward()
    ensures t.esc == s.esc && t.nested == s.nested && t.insideUrl == s.insideUrl
    ensures !s.sc.AtLineEnd() ==> t.lineStates == s.lineStates && t.lineType == s.lineType
    ensures s.sc.AtLineEnd() ==>
      t.lineStates == s.lineStates[s.sc.CurrentLine() := JavaLineState(s.lineType, s.nested)]
      && t.lineType == 0 && t.visibleChars == 0 && t.docTag == TagNone && t.kwType == KwNone
  {
    var ch := s.sc.Ch();
    var s1 :=
      if !IsSpaceChar(ch) then
        s.(visibleChars := s.visibleChars + 1,
           chPrevNonWhite := if !IsSpaceEquiv(s.sc.state) then ch else s.chPrevNonWhite)
      else s;
    var s2 :=
      if s.sc.AtLineEnd() then
        s1.(lineStates := s1.lineStates[s.sc.CurrentLine() := JavaLineState(s1.lineType, s1.nested)],
            lineType := 0, visibleChars := 0, docTag := TagNone, kwType := KwNone)
      else s1;
    s2.(sc := s2.sc.Forward())
  }

  /** One iteration of the loop. */
  function Step(s: JavaScan, env: JavaEnv): (t: JavaScan)
    requires Inv(s) && s.sc.More()
    ensures Keeps(s, t) && Progress(s, t)
  {
    var (b, cont) := Body(s, env);
    if cont then b else Tail(b)
  }

  /** The loop, run to the end of the range. */
  function Run(s: JavaScan, env: JavaEnv): (t: JavaScan)
    requires Inv(s)
    ensures Keeps(s, t) && !t.sc.More()
    decreases s.sc.endPos - s.sc.pos, Rank(s.sc.state)
  {
    if !s.sc.More() then s else Run(Step(s, env), env)
  }

  /** The state before the loop: the template stack restored from the previous
      line, a shebang line at the start of the document, and the last non-blank
      character before the range when the range starts outside code. */
  function InitScan(doc: seq<char>, startPos: nat, length: nat, initStyle: JavaStyle,
                    prevLineState: int, lookback: char): (s: JavaScan)
    requires startPos + length <= |doc|
    ensures Inv(s) && s.sc.doc == doc && s.sc.startPos == startPos && s.sc.endPos == startPos + length
    ensures s.sc.styles == [] && s.lineStates == map[]
  {
    var sc0 := NewCursor(doc, startPos, length, initStyle);
    var nested := if LineOf(doc, startPos) > 0 then RestoreNested(prevLineState) else [];
    var base := JavaScan(sc0, InitialEscape, nested, 0, false, KwNone, '\0', 0, '\0', '\0', TagNone, map[]);
    if startPos == 0 then
      if sc0.Match('#', '!') then base.(sc := sc0.SetState(COMMENTLINE).Forward(), lineType := MaskLineComment)
      else base
    else if IsSpaceEquiv(initStyle) then base.(chPrevNonWhite := lookback)
    else base
  }

  /** The styles of the range and the line states written, for a range that starts
      in initStyle after a line whose state was prevLineState. */
  function ColouriseJava(doc: seq<char>, startPos: nat, length: nat, initStyle: JavaStyle, env: JavaEnv,
                         prevLineState: int, lookback: char): (r: (seq<JavaStyle>, map<nat, int>))
    requires startPos + length <= |doc|
    ensures |r.0| == length
  {
    var t := Run(InitScan(doc, startPos, length, initStyle, prevLineState, lookback), env);
    (t.sc.Complete().styles, t.lineStates)
  }

  /** The colouriser's loop. */
  method ColouriseJavaDoc(doc: seq<char>, startPos: nat, length: nat, initStyle: JavaStyle, env: JavaEnv,
                          prevLineState: int, lookback: char)
    returns (styles: seq<JavaStyle>, lineStates: map<nat, int>)
    requires startPos + length <= |doc|
    ensures |styles| == length
    ensures (styles, lineStates) == ColouriseJava(doc, startPos, length, initStyle, env, prevLineState, lookback)
  {
    var s := InitScan(doc, startPos, length, initStyle, prevLineState, lookback);
    ghost var s0 := s;
    while s.sc.More()
      invariant Inv(s) && s.sc.doc == doc && s.sc.startPos == startPos && s.sc.endPos == startPos + length
      invariant Run(s, env) == Run(s0, env)
      decreases s.sc.endPos - s.sc.pos, Rank(s.sc.state)
    {
      s := Step(s, env);
    }
    var fin := s.sc.Complete();
    styles := fin.styles;
    lineStates := s.lineStates;
  }
}
