/** Styles, keyword roles and per-line state of the Java lexer.

    The style tags are listed in the order of their numeric values; the lexer
    compares them numerically in two places (`IsSpaceEquiv` and the
    single-line string test), which become the predicates below. */
module JavaStyles {

  datatype JavaStyle =
    | DEFAULT | COMMENTLINE | COMMENTBLOCK | COMMENTBLOCKDOC | COMMENTTAGAT | COMMENTTAGHTML | TASKMARKER
    | CHARACTER | STRING | TEMPLATE | TRIPLE_TEMPLATE | TRIPLE_STRING
    | ESCAPECHAR | FORMAT_SPECIFIER | PLACEHOLDER
    | OPERATOR | OPERATOR2 | NUMBER | IDENTIFIER
    | WORD | WORD2 | DIRECTIVE | ANNOTATION | CLASS | INTERFACE | ENUM | RECORD
    | FUNCTION | FUNCTION_DEFINITION | CONSTANT | LABEL

  /** Styles that do not count as code: default, comments, doc tags and task markers. */
  predicate IsSpaceEquiv(s: JavaStyle)
  {
    s.DEFAULT? || s.COMMENTLINE? || s.COMMENTBLOCK? || s.COMMENTBLOCKDOC?
    || s.COMMENTTAGAT? || s.COMMENTTAGHTML? || s.TASKMARKER?
  }

  /** The numeric value of each style: its position in the declaration above. */
  function StyleNumber(s: JavaStyle): nat
  {
    match s
    case DEFAULT => 0 case COMMENTLINE => 1 case COMMENTBLOCK => 2 case COMMENTBLOCKDOC => 3
    case COMMENTTAGAT => 4 case COMMENTTAGHTML => 5 case TASKMARKER => 6
    case CHARACTER => 7 case STRING => 8 case TEMPLATE => 9 case TRIPLE_TEMPLATE => 10 case TRIPLE_STRING => 11
    case ESCAPECHAR => 12 case FORMAT_SPECIFIER => 13 case PLACEHOLDER => 14
    case OPERATOR => 15 case OPERATOR2 => 16 case NUMBER => 17 case IDENTIFIER => 18
    case WORD => 19 case WORD2 => 20 case DIRECTIVE => 21 case ANNOTATION => 22 case CLASS => 23
    case INTERFACE => 24 case ENUM => 25 case RECORD => 26
    case FUNCTION => 27 case FUNCTION_DEFINITION => 28 case CONSTANT => 29 case LABEL => 30
  }

  /** The two numeric comparisons of the lexer agree with the predicates that replace
      them: "at most TASKMARKER" is IsSpaceEquiv, and among the string states "at most
      TEMPLATE" is IsSingleLineString. */
  lemma StyleComparisons(s: JavaStyle)
    ensures IsSpaceEquiv(s) <==> StyleNumber(s) <= StyleNumber(TASKMARKER)
    ensures IsStringStyle(s) ==> (IsSingleLineString(s) <==> StyleNumber(s) <= StyleNumber(TEMPLATE))
    ensures forall t: JavaStyle :: StyleNumber(t) == StyleNumber(s) ==> t == s
  {
  }

  /** The five string-like literal states. */
  predicate IsStringStyle(s: JavaStyle)
  {
    s.CHARACTER? || s.STRING? || s.TEMPLATE? || s.TRIPLE_TEMPLATE? || s.TRIPLE_STRING?
  }

  /** String states numbered at or below TEMPLATE: these end at the end of the line. */
  predicate IsSingleLineString(s: JavaStyle)
  {
    s.CHARACTER? || s.STRING? || s.TEMPLATE?
  }

  predicate IsTemplate(s: JavaStyle) { s.TEMPLATE? || s.TRIPLE_TEMPLATE? }

  /** What an escape or a placeholder returns to: the string it interrupted
      (or DEFAULT, the value before any escape was seen). */
  predicate IsEscapeOuter(s: JavaStyle) { s.DEFAULT? || IsStringStyle(s) }

  /** The entries of the template stack: an interpolation in a template, or a brace inside one. */
  predicate IsNestedEntry(s: JavaStyle) { s.DEFAULT? || IsTemplate(s) }

  /** The keyword that was seen last and what it says about the identifier after it. */
  datatype KeywordType = KwNone | KwAnnotation | KwClass | KwInterface | KwEnum | KwRecord | KwLabel | KwReturn | KwWhile

  /** Keyword types whose value is a style: those between None and Return. */
  predicate IsRoleKeyword(k: KeywordType)
  {
    k.KwAnnotation? || k.KwClass? || k.KwInterface? || k.KwEnum? || k.KwRecord? || k.KwLabel?
  }

  /** The style a role keyword gives to the identifier that follows it. */
  function RoleStyle(k: KeywordType): (s: JavaStyle)
    requires IsRoleKeyword(k)
    ensures !IsSpaceEquiv(s) && !IsStringStyle(s) && s != IDENTIFIER
  {
    match k
    case KwAnnotation => ANNOTATION
    case KwClass => CLASS
    case KwInterface => INTERFACE
    case KwEnum => ENUM
    case KwRecord => RECORD
    case KwLabel => LABEL
  }

  datatype DocTagState = TagNone | TagAt | TagInlineAt | TagOpen | TagClose

  // Per-line state bits.
  const MaskLineComment: int := 1
  const MaskImport: int := 2

  /** Code of a stack entry: DEFAULT is stored as 0 and the templates relative to
      the base style just below TEMPLATE. */
  function NestedCode(s: JavaStyle): (c: nat)
    ensures c < 16
  {
    if s == TEMPLATE then 1 else if s == TRIPLE_TEMPLATE then 2 else 0
  }

  function NestedStyle(c: int): (s: JavaStyle)
    ensures IsNestedEntry(s)
  {
    if c == 1 then TEMPLATE else if c == 2 then TRIPLE_TEMPLATE else DEFAULT
  }

  /** How many entries a count of n keeps: at most three. */
  function Kept(n: int): int { if n < 3 then n else 3 }

  /** The top k entries of the stack, top first, four bits each. */
  function PackEntries(ns: seq<JavaStyle>, k: nat): (v: nat)
    requires k <= |ns|
  {
    if k == 0 then 0 else NestedCode(ns[|ns| - 1]) + 16 * PackEntries(ns[..|ns| - 1], k - 1)
  }

  /** k entries read back, bottom first. */
  function UnpackEntries(v: int, k: nat): (ns: seq<JavaStyle>)
    ensures |ns| == k
    ensures forall i :: 0 <= i < k ==> IsNestedEntry(ns[i])
    decreases k
  {
    if k == 0 then [] else UnpackEntries(v / 16, k - 1) + [NestedStyle(v % 16)]
  }

  /** The stack as stored from bit 8 of the line state: a 3-bit count, then the
      top three entries. */
  function PackNested(ns: seq<JavaStyle>): nat
  {
    (if |ns| < 7 then |ns| else 7) + 8 * PackEntries(ns, Kept(|ns|))
  }

  function UnpackNested(v: int): (ns: seq<JavaStyle>)
    ensures |ns| <= 3
    ensures forall i :: 0 <= i < |ns| ==> IsNestedEntry(ns[i])
  {
    UnpackEntries(v / 8, Kept(v % 8))
  }

  /** The value written for a line: its line type, and the stack from bit 8 when there is one. */
  function JavaLineState(lineType: int, ns: seq<JavaStyle>): int
  {
    if ns == [] then lineType else lineType + 256 * PackNested(ns)
  }

  /** The stack a scan starting after a line with state v begins with. */
  function RestoreNested(v: int): (ns: seq<JavaStyle>)
    ensures |ns| <= 3
    ensures forall i :: 0 <= i < |ns| ==> IsNestedEntry(ns[i])
  {
    if v / 256 != 0 then UnpackNested(v / 256) else []
  }

  lemma DivMod(q: int, r: int, d: int)
    requires d == 8 || d == 16 || d == 256 || d == 2
    requires 0 <= r < d
    ensures (q * d + r) / d == q && (q * d + r) % d == r
  {
    if d == 8 {
      assert (q * 8 + r) / 8 == q;
    } else if d == 16 {
      assert (q * 16 + r) / 16 == q;
    } else if d == 256 {
      assert (q * 256 + r) / 256 == q;
    }
  }

  lemma {:induction false} UnpackPackEntries(ns: seq<JavaStyle>, k: nat)
    requires k <= |ns|
    requires forall i :: 0 <= i < |ns| ==> IsNestedEntry(ns[i])
    ensures UnpackEntries(PackEntries(ns, k), k) == ns[|ns| - k..]
  {
    if k > 0 {
      var init := ns[..|ns| - 1];
      var c := NestedCode(ns[|ns| - 1]);
      DivMod(PackEntries(init, k - 1), c, 16);
      UnpackPackEntries(init, k - 1);
      assert NestedStyle(c) == ns[|ns| - 1];
      assert init[|init| - (k - 1)..] + [ns[|ns| - 1]] == ns[|ns| - k..];
    }
  }

  /** The stored stack reads back as its top three entries. */
  lemma UnpackPackNested(ns: seq<JavaStyle>)
    requires forall i :: 0 <= i < |ns| ==> IsNestedEntry(ns[i])
    ensures PackNested(ns) != 0 <==> ns != []
    ensures UnpackNested(PackNested(ns)) == ns[|ns| - Kept(|ns|)..]
  {
    var m := if |ns| < 7 then |ns| else 7;
    var e := PackEntries(ns, Kept(|ns|));
    assert PackNested(ns) == e * 8 + m;
    DivMod(e, m, 8);
    assert Kept(m) == Kept(|ns|);
    assert UnpackNested(PackNested(ns)) == UnpackEntries(e, Kept(|ns|));
    UnpackPackEntries(ns, Kept(|ns|));
  }

  /** A line state written with a stack of depth at most three restores that stack,
      and one written without a stack restores none. */
  lemma RestoreJavaLineState(lineType: int, ns: seq<JavaStyle>)
    requires 0 <= lineType < 256
    requires |ns| <= 3
    requires forall i :: 0 <= i < |ns| ==> IsNestedEntry(ns[i])
    ensures RestoreNested(JavaLineState(lineType, ns)) == ns
  {
    if ns == [] {
      assert lineType / 256 == 0;
    } else {
      DivMod(PackNested(ns), lineType, 256);
      UnpackPackNested(ns);
    }
  }

  /** The two bits the folder reads from a line state. */
  datatype FoldLineState = FoldLineState(lineComment: int, packageImport: int)

  function FoldLineStateOf(lineState: int): (f: FoldLineState)
    ensures 0 <= f.lineComment <= 1 && 0 <= f.packageImport <= 1
  {
    FoldLineState(lineState % 2, (lineState / 2) % 2)
  }

  /** The folder sees the line-comment bit for a comment line and the import
      bit for an import line, whatever stack is stored above them. */
  lemma FoldLineStateOfJavaLineState(lineType: int, ns: seq<JavaStyle>)
    requires lineType == 0 || lineType == MaskLineComment || lineType == MaskImport
    ensures FoldLineStateOf(JavaLineState(lineType, ns)).lineComment == (if lineType == MaskLineComment then 1 else 0)
    ensures FoldLineStateOf(JavaLineState(lineType, ns)).packageImport == (if lineType == MaskImport then 1 else 0)
  {
    var k := if ns == [] then 0 else PackNested(ns);
    assert JavaLineState(lineType, ns) == (k * 128 + lineType / 2) * 2 + lineType % 2;
    DivMod(k * 128 + lineType / 2, lineType % 2, 2);
    DivMod(k * 64, lineType / 2, 2);
  }
}
