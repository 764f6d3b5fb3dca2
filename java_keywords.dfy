/** Keyword tables and identifier classification of the Java lexer.

    The keyword lists are sets of words.  An identifier that is in none of them
    gets a role from what surrounds it: a type in a cast or a declaration, a
    method call or definition, or a jump label. */
module JavaKeywords {
  import opened CharClass
  import opened JavaStyles

  datatype Option<T> = None | Some(value: T)

  datatype JavaEnv = JavaEnv(
    keywords: set<string>, types: set<string>, directives: set<string>, classes: set<string>,
    interfaces: set<string>, enums: set<string>, constants: set<string>)

  /** What the role heuristics look at when an identifier ends: the character that
      ends it and the one after, the next non-blank character (skipping a closing
      parenthesis), the last non-blank characters before the identifier, and the
      role of the last keyword. */
  datatype RoleContext = RoleContext(ch: char, chNext: char, docNext: char,
                                     chBefore: char, chBeforeIdentifier: char, kwType: KeywordType)

  /** The role of an identifier that is in no table, ends in neither ':' nor '.',
      and follows no role keyword. IDENTIFIER means the identifier keeps its style. */
  function IdentifierRole(c: RoleContext): JavaStyle
  {
    if c.ch == ')' then
      if c.chBeforeIdentifier == '(' && (c.docNext == '(' || (c.kwType != KwWhile && IsIdentifierCharEx(c.docNext)))
      then CLASS else IDENTIFIER
    else if c.docNext == '(' then
      if c.kwType != KwReturn && (IsIdentifierCharEx(c.chBefore) || c.chBefore == ']')
      then FUNCTION_DEFINITION else FUNCTION
    else if (c.ch == '[' && c.chNext == ']') || (c.ch == '<' && (c.chNext == '>' || c.chNext == '?'))
         || (c.chBeforeIdentifier == '<' && (c.docNext == '>' || c.docNext == '<'))
         || IsIdentifierStartEx(c.docNext)
    then CLASS
    else IDENTIFIER
  }

  /** What each role means: a parenthesised name followed by an operand is a cast
      type; a name followed by '(' is a method, a definition exactly when a type or
      an array bracket precedes it outside a return; a name followed by another
      name, by `[]` or by a generic bracket is a type; nothing else changes. */
  lemma IdentifierRoleMeaning(c: RoleContext)
    ensures IdentifierRole(c) == CLASS || IdentifierRole(c) == FUNCTION
            || IdentifierRole(c) == FUNCTION_DEFINITION || IdentifierRole(c) == IDENTIFIER
    ensures c.ch == ')' ==> (IdentifierRole(c) == CLASS <==>
              c.chBeforeIdentifier == '(' && (c.docNext == '(' || (c.kwType != KwWhile && IsIdentifierCharEx(c.docNext))))
    ensures c.ch != ')' && c.docNext == '(' ==>
              (IdentifierRole(c) == FUNCTION_DEFINITION <==> c.kwType != KwReturn && (IsIdentifierCharEx(c.chBefore) || c.chBefore == ']'))
              && (IdentifierRole(c) == FUNCTION || IdentifierRole(c) == FUNCTION_DEFINITION)
    ensures (IdentifierRole(c) == FUNCTION || IdentifierRole(c) == FUNCTION_DEFINITION) ==> c.ch != ')' && c.docNext == '('
    ensures c.ch != ')' && c.docNext != '(' && IsIdentifierStartEx(c.docNext) ==> IdentifierRole(c) == CLASS
  {
  }

  /** One step of the classification ladder: whether it applies and the style it gives. */
  datatype Rule = Rule(hit: bool, style: JavaStyle)

  /** The tables in the order the lexer consults them; nonSealed says whether the
      word is the `non` of a `non-sealed`. */
  function TableRules(env: JavaEnv, w: string, nonSealed: bool): seq<Rule>
  {
    [Rule(w in env.keywords, WORD), Rule(nonSealed, WORD), Rule(w in env.types, WORD2),
     Rule(w in env.directives, DIRECTIVE), Rule(w in env.classes, CLASS),
     Rule(w in env.interfaces, INTERFACE), Rule(w in env.enums, ENUM),
     Rule(w in env.constants, CONSTANT)]
  }

  function FirstHit(rules: seq<Rule>): (r: Option<JavaStyle>)
  {
    if rules == [] then None else if rules[0].hit then Some(rules[0].style) else FirstHit(rules[1..])
  }

  /** The first rule that applies decides, and none of the rules before it applies. */
  lemma {:induction false} FirstHitIsFirst(rules: seq<Rule>, i: nat)
    requires i < |rules| && rules[i].hit
    requires forall j :: 0 <= j < i ==> !rules[j].hit
    ensures FirstHit(rules) == Some(rules[i].style)
  {
    if i > 0 {
      FirstHitIsFirst(rules[1..], i - 1);
    }
  }

  /** No style is given when no rule applies. */
  lemma {:induction false} FirstHitNone(rules: seq<Rule>)
    ensures FirstHit(rules) == None <==> forall j :: 0 <= j < |rules| ==> !rules[j].hit
  {
    if rules != [] {
      FirstHitNone(rules[1..]);
      assert forall j :: 1 <= j < |rules| ==> rules[j] == rules[1..][j - 1];
    }
  }

  /** The ladder the lexer runs at the end of an identifier. */
  function TableStyle(env: JavaEnv, w: string, nonSealed: bool): Option<JavaStyle>
  {
    if w in env.keywords then Some(WORD)
    else if nonSealed then Some(WORD)
    else if w in env.types then Some(WORD2)
    else if w in env.directives then Some(DIRECTIVE)
    else if w in env.classes then Some(CLASS)
    else if w in env.interfaces then Some(INTERFACE)
    else if w in env.enums then Some(ENUM)
    else if w in env.constants then Some(CONSTANT)
    else None
  }

  /** The ladder gives the first table hit in the fixed order. */
  lemma TableStyleIsFirstHit(env: JavaEnv, w: string, nonSealed: bool)
    ensures TableStyle(env, w, nonSealed) == FirstHit(TableRules(env, w, nonSealed))
  {
    var rules := TableRules(env, w, nonSealed);
    if exists i :: 0 <= i < |rules| && rules[i].hit {
      var i :| 0 <= i < |rules| && rules[i].hit && forall j :: 0 <= j < i ==> !rules[j].hit
        by { FirstHitIndex(rules); }
      FirstHitIsFirst(rules, i);
      assert forall j :: 0 <= j < i ==> !rules[j].hit;
      if i == 0 {
      } else if i == 1 {
        assert !rules[0].hit;
      } else if i == 2 {
        assert !rules[0].hit && !rules[1].hit;
      } else if i == 3 {
        assert !rules[0].hit && !rules[1].hit && !rules[2].hit;
      } else if i == 4 {
        assert !rules[0].hit && !rules[1].hit && !rules[2].hit && !rules[3].hit;
      } else if i == 5 {
        assert !rules[0].hit && !rules[1].hit && !rules[2].hit && !rules[3].hit && !rules[4].hit;
      } else if i == 6 {
        assert !rules[0].hit && !rules[1].hit && !rules[2].hit && !rules[3].hit && !rules[4].hit && !rules[5].hit;
      } else {
        assert !rules[0].hit && !rules[1].hit && !rules[2].hit && !rules[3].hit && !rules[4].hit && !rules[5].hit && !rules[6].hit;
      }
    } else {
      FirstHitNone(rules);
      assert !rules[0].hit && !rules[1].hit && !rules[2].hit && !rules[3].hit;
      assert !rules[4].hit && !rules[5].hit && !rules[6].hit && !rules[7].hit;
    }
  }

  lemma FirstHitIndex(rules: seq<Rule>)
    requires exists i :: 0 <= i < |rules| && rules[i].hit
    ensures exists i :: 0 <= i < |rules| && rules[i].hit && forall j :: 0 <= j < i ==> !rules[j].hit
  {
    var k :| 0 <= k < |rules| && rules[k].hit;
    var i := 0;
    while !rules[i].hit
      invariant 0 <= i <= k
      invariant forall j :: 0 <= j < i ==> !rules[j].hit
      decreases k - i
    {
      i := i + 1;
    }
  }

  /** The keyword's effect on the role of the next identifier. */
  function KeywordTypeAfter(w: string, k: KeywordType): KeywordType
  {
    if w == "import" then k
    else if w == "class" || w == "new" || w == "extends" || w == "instanceof" || w == "throws" then KwClass
    else if w == "interface" || w == "implements" then KwInterface
    else if w == "enum" then KwEnum
    else if w == "record" then KwRecord
    else if w == "break" || w == "continue" then KwLabel
    else if w == "return" || w == "yield" then KwReturn
    else if w == "if" || w == "while" then KwWhile
    else k
  }

  /** MatchSealed: the text from pos (copied up to the end of the line) starts with
      "ealed" followed by a blank, a control character, a slash or the end of the copy. */
  predicate MatchSealed(doc: seq<char>, pos: nat, endPos: nat)
  {
    pos + 5 <= endPos <= |doc| && doc[pos..pos + 5] == "ealed"
    && (pos + 5 == endPos || doc[pos + 5] <= ' ' || doc[pos + 5] == '/')
  }

  /** The eight-byte buffer the lexer fills: at most seven characters of the text
      between pos and endPos, then NUL bytes. */
  function SealedCopy(doc: seq<char>, pos: nat, endPos: nat): (b: seq<char>)
    requires endPos <= |doc|
    ensures |b| == 8
  {
    var n := if pos < endPos then Min(endPos - pos, 7) else 0;
    (if n == 0 then [] else doc[pos..pos + n]) + seq(8 - n, _ => '\0')
  }

  /** MatchSealed says what the test on the copied buffer says: the buffer starts with
      "ealed" and the byte after it is at most a blank or is a slash. */
  lemma MatchSealedCopy(doc: seq<char>, pos: nat, endPos: nat)
    requires endPos <= |doc|
    ensures MatchSealed(doc, pos, endPos) <==>
      SealedCopy(doc, pos, endPos)[..5] == "ealed"
      && (SealedCopy(doc, pos, endPos)[5] <= ' ' || SealedCopy(doc, pos, endPos)[5] == '/')
  {
    var b := SealedCopy(doc, pos, endPos);
    if MatchSealed(doc, pos, endPos) {
      assert b[..5] == doc[pos..pos + 5];
    } else if b[..5] == "ealed" {
      var n := if pos < endPos then Min(endPos - pos, 7) else 0;
      assert b[4] == 'd';
      assert n >= 5;
      assert doc[pos..pos + 5] == b[..5];
    }
  }
}
