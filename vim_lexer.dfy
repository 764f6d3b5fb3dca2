/** The Vim colouriser (LexVim.cxx, ColouriseVimDoc).

    One loop over the range.  Each iteration does the work of the current
    state, may `continue` (go round again without the common tail), and
    otherwise runs the dispatch for the default state and the tail that counts
    visible characters, keeps the line flags, writes the line state at the end
    of a line and moves forward.  `Step` is one iteration as a function of all
    the loop's variables, `Run` iterates it to the end of the range, and the
    method `ColouriseVimDoc` is the loop itself, proved to compute what `Run`
    computes. */
module VimLexer {
  import opened CharClass
  import opened StyleContext
  import opened VimStyles
  import opened VimEscape

  /** `export` was the last keyword: a following `def` is still a keyword. */
  datatype KeywordType = KwNone | KwExport

  /** The two keyword tables, as membership sets. */
  datatype VimEnv = VimEnv(keywords: set<string>, commands: set<string>)

  /** The loop's variables.  lineStates holds the line states written so far. */
  datatype VimScan = VimScan(
    sc: Cursor<VimStyle>,
    esc: EscapeSeq,
    flags: VimLineFlags,
    lineVisibleChars: int,
    logicalVisibleChars: int,
    kwType: KeywordType,
    preferRegex: bool,
    insideRegexRange: bool,
    lineStates: map<nat, int>)

  /** t is a later point of the same scan: same range, not behind, and the styles
      already given are kept. */
  ghost predicate Keeps(s: VimScan, t: VimScan)
  {
    t.sc.Valid() && t.sc.doc == s.sc.doc && t.sc.startPos == s.sc.startPos && t.sc.endPos == s.sc.endPos
    && s.sc.pos <= t.sc.pos && s.sc.styles <= t.sc.styles
  }

  /** The escape state is left without moving, by a `continue` to the string. */
  function Rank(st: VimStyle): nat
  {
    if st.ESCAPECHAR? then 2 else 1
  }

  /** A `continue` either moves forward or leaves the escape state. */
  ghost predicate Progress(s: VimScan, t: VimScan)
  {
    t.sc.pos > s.sc.pos || Rank(t.sc.state) < Rank(s.sc.state)
  }

  lemma PrefixAppend<T>(a: seq<T>, b: seq<T>)
    ensures a <= a + b
  {
    assert (a + b)[..|a|] == a;
  }

  /** SetState keeps the styles given so far. */
  lemma SetStateKeeps(c: Cursor<VimStyle>, st: VimStyle)
    requires c.Valid()
    ensures c.styles <= c.SetState(st).styles
  {
    PrefixAppend(c.styles, Fill(c.state, c.pos - c.segStart));
  }

  // ---------------------------------------------------------------------------
  // The work of each state.

  /** Closes the open span and returns to the default state. */
  function ToDefault(s: VimScan): (t: VimScan)
    requires s.sc.Valid()
    ensures Keeps(s, t) && t.sc.state == DEFAULT
  {
    SetStateKeeps(s.sc, DEFAULT);
    s.(sc := s.sc.SetState(DEFAULT))
  }

  /** Moves past the current character and returns to the default state. */
  function ForwardToDefault(s: VimScan): (t: VimScan)
    requires s.sc.Valid()
    ensures Keeps(s, t) && t.sc.state == DEFAULT
  {
    SetStateKeeps(s.sc.Forward(), DEFAULT);
    s.(sc := s.sc.ForwardSetState(DEFAULT))
  }

  function NumberCase(s: VimScan): (t: VimScan)
    requires s.sc.Valid()
    ensures Keeps(s, t)
  {
    if !IsDecimalNumber(s.sc.ChPrev(), s.sc.Ch(), s.sc.ChNext()) then ToDefault(s) else s
  }

  /** A keyword: a statement keyword at the logical start of a command outside an
      `autocmd` line, or `def` right after `export`, is WORD; elsewhere it is demoted. */
  function KeywordEnd(s: VimScan, w: string): (t: VimScan)
    requires s.sc.Valid()
    ensures t.sc == s.sc.(state := t.sc.state)
  {
    if !s.flags.autoCommand && s.logicalVisibleChars == s.sc.LengthCurrent() then
      s.(sc := s.sc.ChangeState(WORD),
         flags := if w == "au" || w == "autocmd" then s.flags.(autoCommand := true) else s.flags,
         kwType := if w == "export" then KwExport else KwNone)
    else if s.kwType == KwExport && w == "def" then s.(sc := s.sc.ChangeState(WORD), kwType := KwNone)
    else s.(sc := s.sc.ChangeState(WORD_DEMOTED), kwType := KwNone)
  }

  /** A command: at the start of the line `syn`/`syntax` decides whether a slash
      opens a pattern, and `vim9script` switches on Vim9 mode. */
  function CommandEnd(s: VimScan, w: string): (t: VimScan)
    requires s.sc.Valid()
    ensures t.sc == s.sc.(state := COMMANDS)
  {
    var c := s.sc.ChangeState(COMMANDS);
    if s.lineVisibleChars == s.sc.LengthCurrent() then
      if w == "syn" || w == "syntax" then
        var chNext := s.sc.GetLineNextChar();
        s.(sc := c, kwType := KwNone, preferRegex := chNext == 'm' || chNext == 'r')
      else if w == "vim9script" then s.(sc := c, kwType := KwNone, flags := s.flags.(vim9Script := true))
      else s.(sc := c, kwType := KwNone)
    else s.(sc := c, kwType := KwNone)
  }

  /** An identifier has ended: keywords, then commands, then a function call. */
  function WordEnd(s: VimScan, env: VimEnv): (t: VimScan)
    requires s.sc.Valid()
    ensures Keeps(s, t) && t.sc.state == DEFAULT
  {
    var w := s.sc.GetCurrent();
    var t :=
      if w in env.keywords then KeywordEnd(s, w)
      else if w in env.commands then CommandEnd(s, w)
      else if s.sc.GetLineNextChar() == '(' then s.(sc := s.sc.ChangeState(FUNCTION), kwType := KwNone)
      else s.(kwType := KwNone);
    ToDefault(t)
  }

  function IdentifierCase(s: VimScan, env: VimEnv): (t: VimScan)
    requires s.sc.Valid()
    ensures Keeps(s, t)
  {
    if !IsIdentifierChar(s.sc.Ch()) then WordEnd(s, env) else s
  }

  /** A double-quoted string: a new line ends it, a backslash may start an
      escape (the character after it is skipped either way), a quote closes it. */
  function StringDqCase(s: VimScan): (t: VimScan)
    requires s.sc.Valid()
    ensures Keeps(s, t)
  {
    if s.sc.AtLineStart() then ToDefault(s)
    else if s.sc.Ch() == '\\' then
      var (ok, e) := ResetEscape(s.sc.ChNext());
      SetStateKeeps(s.sc, ESCAPECHAR);
      s.(esc := e, sc := if ok then s.sc.SetState(ESCAPECHAR).Forward() else s.sc.Forward())
    else if s.sc.Ch() == '"' then ForwardToDefault(s)
    else s
  }

  /** The escape spends one unit on the current character; when it ends, the
      string resumes here (`continue`). */
  function EscapeCase(s: VimScan): (r: (VimScan, bool))
    requires s.sc.Valid()
    ensures Keeps(s, r.0) && (r.1 ==> r.0.sc.state == STRING_DQ && r.0.sc.pos == s.sc.pos)
  {
    var (end, e) := EscapeEnd(s.esc, s.sc.Ch());
    SetStateKeeps(s.sc, STRING_DQ);
    if end then (s.(esc := e, sc := s.sc.SetState(STRING_DQ)), true) else (s.(esc := e), false)
  }

  /** `''` inside a single-quoted string: both quotes are an escape and the string
      goes on after them (`continue`). */
  function DoubledQuote(s: VimScan): (t: VimScan)
    requires s.sc.Valid() && s.sc.More()
    ensures Keeps(s, t) && t.sc.pos > s.sc.pos
  {
    var c1 := s.sc.SetState(ESCAPECHAR).Forward();
    SetStateKeeps(s.sc, ESCAPECHAR);
    SetStateKeeps(c1.Forward(), STRING_SQ);
    s.(sc := c1.ForwardSetState(STRING_SQ))
  }

  /** A single-quoted string: a new line ends it, `''` is an escaped quote, a lone
      quote closes it. */
  function StringSqCase(s: VimScan): (r: (VimScan, bool))
    requires s.sc.Valid() && s.sc.More()
    ensures Keeps(s, r.0) && (r.1 ==> r.0.sc.pos > s.sc.pos)
  {
    if s.sc.AtLineStart() then (ToDefault(s), false)
    else if s.sc.Ch() == '\'' then
      if s.sc.ChNext() == '\'' then (DoubledQuote(s), true) else (ForwardToDefault(s), false)
    else (s, false)
  }

  /** A pattern: a backslash skips the next character, brackets open and close a
      character range, and a slash outside a range closes the pattern. */
  function RegexCase(s: VimScan): (t: VimScan)
    requires s.sc.Valid()
    ensures Keeps(s, t)
  {
    var ch := s.sc.Ch();
    if s.sc.AtLineStart() then ToDefault(s)
    else if ch == '\\' then s.(sc := s.sc.Forward())
    else if ch == '[' || ch == ']' then s.(insideRegexRange := ch == '[')
    else if ch == '/' && !s.insideRegexRange then ForwardToDefault(s)
    else s
  }

  function CommentLineCase(s: VimScan): (t: VimScan)
    requires s.sc.Valid()
    ensures Keeps(s, t)
  {
    if s.sc.AtLineStart() then ToDefault(s) else s
  }

  function BlobHexCase(s: VimScan): (t: VimScan)
    requires s.sc.Valid()
    ensures Keeps(s, t)
  {
    if !(IsIdentifierChar(s.sc.Ch()) || s.sc.Ch() == '.') then ToDefault(s) else s
  }

  /** Environment variables, options and registers end at a non-identifier character. */
  function NameCase(s: VimScan): (t: VimScan)
    requires s.sc.Valid()
    ensures Keeps(s, t)
  {
    if !IsIdentifierChar(s.sc.Ch()) then ToDefault(s) else s
  }

  // ---------------------------------------------------------------------------
  // The dispatch in the default state.

  /** A double quote opens a comment when nothing of the command precedes it and
      Vim9 mode is off, and a string otherwise; a comment as the first visible
      character marks the line as a comment line. */
  function QuoteStart(s: VimScan): (t: VimScan)
    requires s.sc.Valid()
    ensures Keeps(s, t)
  {
    var st := if s.logicalVisibleChars != 0 || s.flags.vim9Script then STRING_DQ else COMMENTLINE;
    SetStateKeeps(s.sc, st);
    s.(sc := s.sc.SetState(st),
       flags := if s.lineVisibleChars == 0 && st == COMMENTLINE then s.flags.(lineComment := true) else s.flags)
  }

  /** `#` opens a Vim9 comment after white space and is an operator otherwise; as
      the first visible character it marks the line as a comment line. */
  function HashStart(s: VimScan): (t: VimScan)
    requires s.sc.Valid()
    ensures Keeps(s, t)
  {
    var st := if s.sc.ChPrev() <= ' ' then COMMENTLINE else OPERATOR;
    SetStateKeeps(s.sc, st);
    s.(sc := s.sc.SetState(st),
       flags := if s.lineVisibleChars == 0 then s.flags.(lineComment := true) else s.flags)
  }

  /** An identifier, or a one-letter namespace such as `g:` before a variable. */
  function IdentifierStart(s: VimScan): (t: VimScan)
    requires s.sc.Valid()
    ensures Keeps(s, t)
  {
    var sc := s.sc;
    SetStateKeeps(sc, IDENTIFIER);
    SetStateKeeps(sc, ENV_VARIABLE);
    SetStateKeeps(sc.SetState(ENV_VARIABLE).Forward(), OPERATOR);
    if sc.ChNext() == ':' && IsLowerCase(sc.Ch()) then s.(sc := sc.SetState(ENV_VARIABLE).ForwardSetState(OPERATOR))
    else s.(sc := sc.SetState(IDENTIFIER))
  }

  /** An operator; a single `|` separates commands outside an `autocmd` line. */
  function OperatorStart(s: VimScan): (t: VimScan)
    requires s.sc.Valid()
    ensures Keeps(s, t)
  {
    SetStateKeeps(s.sc, OPERATOR);
    var pipe := s.sc.Ch() == '|' && s.sc.ChNext() != '|' && !s.flags.autoCommand;
    s.(sc := s.sc.SetState(OPERATOR), logicalVisibleChars := if pipe then -1 else s.logicalVisibleChars)
  }

  /** The dispatch on the current character in the default state. */
  function DefaultCase(s: VimScan): (t: VimScan)
    requires s.sc.Valid()
    ensures Keeps(s, t)
  {
    var sc := s.sc;
    var ch := sc.Ch();
    SetStateKeeps(sc, STRING_SQ);
    SetStateKeeps(sc, BLOB_HEX);
    SetStateKeeps(sc, NUMBER);
    SetStateKeeps(sc, ENV_VARIABLE);
    SetStateKeeps(sc, OPTION);
    SetStateKeeps(sc, REGISTER);
    SetStateKeeps(sc, REGEX);
    if ch == '"' then QuoteStart(s)
    else if ch == '#' then HashStart(s)
    else if ch == '\'' then s.(sc := sc.SetState(STRING_SQ))
    // UnsafeLower ORs in the case bit, which turns only 'Z' and 'z' into 'z'.
    else if ch == '0' && ToLower(sc.ChNext()) == 'z' then s.(sc := sc.SetState(BLOB_HEX))
    else if IsNumberStart(ch, sc.ChNext()) then s.(sc := sc.SetState(NUMBER))
    else if (ch == '$' || ch == '&') && IsIdentifierChar(sc.ChNext()) then
      s.(sc := sc.SetState(if ch == '$' then ENV_VARIABLE else OPTION).Forward())
    else if ch == '@' then s.(sc := sc.SetState(REGISTER).Forward())
    else if ch == '\\' && s.logicalVisibleChars != 0 then s.(sc := sc.Forward())
    else if IsIdentifierStart(ch) then IdentifierStart(s)
    else if ch == '/' && s.preferRegex && !IsEOLChar(sc.ChNext()) then
      s.(insideRegexRange := false, sc := sc.SetState(REGEX))
    else if IsAGraphic(ch) then OperatorStart(s)
    else s
  }

  // ---------------------------------------------------------------------------
  // One iteration.

  /** The case labels of the loop's switch; states without a case of their own fall through. */
  datatype Branch = OperatorBranch | NumberBranch | IdentifierBranch | DqBranch | EscapeBranch | SqBranch
                  | RegexBranch | CommentBranch | BlobBranch | NameBranch | NoBranch

  function BranchOf(st: VimStyle): (b: Branch)
    ensures b == NameBranch <==> st == ENV_VARIABLE || st == OPTION || st == REGISTER
  {
    match st
    case OPERATOR => OperatorBranch
    case NUMBER => NumberBranch
    case IDENTIFIER => IdentifierBranch
    case STRING_DQ => DqBranch
    case ESCAPECHAR => EscapeBranch
    case STRING_SQ => SqBranch
    case REGEX => RegexBranch
    case COMMENTLINE => CommentBranch
    case BLOB_HEX => BlobBranch
    case ENV_VARIABLE | OPTION | REGISTER => NameBranch
    case _ => NoBranch
  }

  /** The switch on the state.  The flag says that the case ends with `continue`. */
  function Switch(s: VimScan, env: VimEnv): (r: (VimScan, bool))
    requires s.sc.Valid() && s.sc.More()
    ensures Keeps(s, r.0) && (r.1 ==> Progress(s, r.0))
  {
    match BranchOf(s.sc.state)
    case OperatorBranch => (ToDefault(s), false)
    case NumberBranch => (NumberCase(s), false)
    case IdentifierBranch => (IdentifierCase(s, env), false)
    case DqBranch => (StringDqCase(s), false)
    case EscapeBranch => EscapeCase(s)
    case SqBranch => StringSqCase(s)
    case RegexBranch => (RegexCase(s), false)
    case CommentBranch => (CommentLineCase(s), false)
    case BlobBranch => (BlobHexCase(s), false)
    case NameBranch => (NameCase(s), false)
    case NoBranch => (s, false)
  }

  /** The switch, then the default dispatch when the state is (now) DEFAULT. */
  function Body(s: VimScan, env: VimEnv): (r: (VimScan, bool))
    requires s.sc.Valid() && s.sc.More()
    ensures Keeps(s, r.0) && (r.1 ==> Progress(s, r.0))
  {
    var r1 := Switch(s, env);
    if !r1.1 && r1.0.sc.state == DEFAULT then (DefaultCase(r1.0), false) else r1
  }

  /** The first visible character of a line (a leading `:` does not count) sets
      the continuation flag when it is a backslash and clears the `autocmd` flag
      otherwise; every visible character is counted. */
  function CountVisible(s: VimScan): (t: VimScan)
    ensures t == s.(flags := t.flags, lineVisibleChars := t.lineVisibleChars, logicalVisibleChars := t.logicalVisibleChars)
  {
    var ch := s.sc.Ch();
    if !IsSpaceChar(ch) && !(s.lineVisibleChars == 0 && ch == ':') then
      var f :=
        if s.lineVisibleChars == 0 then
          (if ch == '\\' then s.flags.(continuation := true) else s.flags.(autoCommand := false))
        else s.flags;
      s.(flags := f, lineVisibleChars := s.lineVisibleChars + 1, logicalVisibleChars := s.logicalVisibleChars + 1)
    else s
  }

  /** At the end of a line its flags are stored, and only the `autocmd` and Vim9
      flags go on to the next line. */
  function EndLine(s: VimScan): (t: VimScan)
    requires s.sc.pos <= |s.sc.doc|
    ensures t.sc == s.sc && t.esc == s.esc && t.kwType == s.kwType && t.insideRegexRange == s.insideRegexRange
  {
    if s.sc.AtLineEnd() then
      s.(lineStates := s.lineStates[s.sc.CurrentLine() := Encode(s.flags)], flags := CarryOver(s.flags),
         lineVisibleChars := 0, logicalVisibleChars := 0, preferRegex := false)
    else s
  }

  /** The common tail: count, end the line, move forward. */
  function Tail(s: VimScan): (t: VimScan)
    requires s.sc.Valid()
    ensures Keeps(s, t) && t.sc == s.sc.Forward()
  {
    var t := EndLine(CountVisible(s));
    t.(sc := t.sc.Forward())
  }

  /** One iteration of the loop. */
  function Step(s: VimScan, env: VimEnv): (t: VimScan)
    requires s.sc.Valid() && s.sc.More()
    ensures Keeps(s, t) && Progress(s, t)
  {
    var (b, cont) := Body(s, env);
    if cont then b else Tail(b)
  }

  /** The loop, run to the end of the range. */
  function Run(s: VimScan, env: VimEnv): (t: VimScan)
    requires s.sc.Valid()
    ensures Keeps(s, t) && !t.sc.More()
    decreases s.sc.endPos - s.sc.pos, Rank(s.sc.state)
  {
    if !s.sc.More() then s else Run(Step(s, env), env)
  }

  /** The state before the loop: the carried flags of the previous line, or a
      shebang line at the start of the document. */
  function InitScan(doc: seq<char>, startPos: nat, length: nat, initStyle: VimStyle, prevLineState: int): (s: VimScan)
    requires startPos + length <= |doc|
    ensures s.sc.Valid() && s.sc.doc == doc && s.sc.startPos == startPos && s.sc.endPos == startPos + length
    ensures s.sc.styles == [] && s.lineStates == map[]
  {
    var sc0 := NewCursor(doc, startPos, length, initStyle);
    var base := VimScan(sc0, InitialEscape, NoFlags, 0, 0, KwNone, false, false, map[]);
    if LineOf(doc, startPos) > 0 then base.(flags := RestoredFlags(prevLineState))
    else if startPos == 0 && sc0.Match('#', '!') then
      base.(sc := sc0.SetState(COMMENTLINE).Forward(), flags := NoFlags.(lineComment := true))
    else base
  }

  /** The styles of the range and the line states written, for a range that starts
      in initStyle after a line whose state was prevLineState. */
  function ColouriseVim(doc: seq<char>, startPos: nat, length: nat, initStyle: VimStyle, env: VimEnv,
                        prevLineState: int): (r: (seq<VimStyle>, map<nat, int>))
    requires startPos + length <= |doc|
    ensures |r.0| == length
  {
    var t := Run(InitScan(doc, startPos, length, initStyle, prevLineState), env);
    (t.sc.Complete().styles, t.lineStates)
  }

  /** The colouriser's loop. */
  method ColouriseVimDoc(doc: seq<char>, startPos: nat, length: nat, initStyle: VimStyle, env: VimEnv,
                         prevLineState: int)
    returns (styles: seq<VimStyle>, lineStates: map<nat, int>)
    requires startPos + length <= |doc|
    ensures |styles| == length
    ensures (styles, lineStates) == ColouriseVim(doc, startPos, length, initStyle, env, prevLineState)
  {
    var s := InitScan(doc, startPos, length, initStyle, prevLineState);
    ghost var s0 := s;
    while s.sc.More()
      invariant s.sc.Valid() && s.sc.doc == doc && s.sc.startPos == startPos && s.sc.endPos == startPos + length
      invariant Run(s, env) == Run(s0, env)
      decreases s.sc.endPos - s.sc.pos, Rank(s.sc.state)
    {
      s := Step(s, env);
    }
    var fin := s.sc.Complete();
    styles := fin.styles;
    lineStates := s.lineStates;
  }
}
