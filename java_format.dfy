/** Recognition of java.util.Formatter specifiers inside Java strings
    (`%[argument_index$][flags][width][.precision]conversion`). */
module JavaFormat {
  import opened CharClass

  predicate IsFormatSpecifier(ch: char)
  {
    ch == 'a' || ch == 'A' || ch == 'b' || ch == 'B' || ch == 'c' || ch == 'C' || ch == 'd'
    || ch == 'e' || ch == 'E' || ch == 'f' || ch == 'g' || ch == 'G' || ch == 'h' || ch == 'H'
    || ch == 'n' || ch == 'o' || ch == 's' || ch == 'S' || ch == 'x' || ch == 'X'
  }

  /** The letters that may follow a `t` or `T` conversion: time, date and composite forms. */
  predicate IsDateTimeFormatSpecifier(ch: char)
  {
    // time
    ch == 'H' || ch == 'I' || ch == 'k' || ch == 'l' || ch == 'M' || ch == 'S' || ch == 'L'
    || ch == 'N' || ch == 'p' || ch == 'z' || ch == 'Z' || ch == 's' || ch == 'Q'
    // date
    || ch == 'B' || ch == 'b' || ch == 'h' || ch == 'A' || ch == 'a' || ch == 'C' || ch == 'Y'
    || ch == 'y' || ch == 'j' || ch == 'm' || ch == 'd' || ch == 'e'
    // date and time
    || ch == 'R' || ch == 'T' || ch == 'r' || ch == 'D' || ch == 'F' || ch == 'c'
  }

  predicate IsFormatFlag(ch: char)
  {
    ch == ' ' || ch == '+' || ch == '-' || ch == '#' || ch == '0' || ch == '(' || ch == ','
  }

  /** The n characters from i are all flags. */
  predicate AllFlags(doc: seq<char>, i: nat, n: nat)
    decreases n
  {
    n == 0 || (IsFormatFlag(CharAt(doc, i)) && AllFlags(doc, i + 1, n - 1))
  }

  /** Each character of a flag run is a flag. */
  lemma {:induction false} AllFlagsAt(doc: seq<char>, i: nat, n: nat)
    requires AllFlags(doc, i, n)
    ensures forall k :: i <= k < i + n ==> IsFormatFlag(CharAt(doc, k))
    decreases n
  {
    if n > 0 {
      AllFlagsAt(doc, i + 1, n - 1);
    }
  }

  /** Length of the run of flag characters starting at i. */
  function FlagRun(doc: seq<char>, i: nat): (n: nat)
    ensures AllFlags(doc, i, n)
    ensures !IsFormatFlag(CharAt(doc, i + n))
    decreases |doc| - i
  {
    if i < |doc| && IsFormatFlag(doc[i]) then 1 + FlagRun(doc, i + 1) else 0
  }

  /** Where the argument index ends: after an optional `<`, a digit run and, when
      the specifier starts with a digit, a `$`. */
  function IndexEnd(doc: seq<char>, pos: nat): nat
  {
    var a := pos + 1 + (if CharAt(doc, pos + 1) == '<' then 1 else 0);
    var b := a + DigitRun(doc, a);
    if CharAt(doc, b) == '$' && IsADigit(CharAt(doc, pos + 1)) then b + 1 else b
  }

  /** Where the precision ends, given where the flags start. */
  function PrecisionEnd(doc: seq<char>, c: nat): nat
  {
    var d := c + FlagRun(doc, c);
    var w := d + DigitRun(doc, d);
    if CharAt(doc, w) == '.' then w + 1 + DigitRun(doc, w + 1) else w
  }

  /** Number of characters styled as a format specifier when the `%` at pos is
      reached inside a string (0: not a specifier). */
  function FormatSpecLength(doc: seq<char>, pos: nat, insideUrl: bool): nat
  {
    var chNext := CharAt(doc, pos + 1);
    if chNext == '%' then 2
    else if insideUrl && IsHexDigit(chNext) then 0
    else if IsASpaceOrTab(chNext) && IsADigit(CharAt(doc, pos - 1)) then 0
    else
      var p := PrecisionEnd(doc, IndexEnd(doc, pos));
      var conv := ConversionAt(doc, p);
      if conv == 0 then 0 else p - pos + conv
  }

  predicate IsTimeConversion(ch: char) { ch == 't' || ch == 'T' }

  /** Length of the conversion at p: 2 for a `t`/`T` followed by a date/time letter,
      1 for a conversion letter, 0 for anything else. */
  function ConversionAt(doc: seq<char>, p: nat): (n: nat)
    ensures n <= 2
  {
    if IsTimeConversion(CharAt(doc, p)) && IsDateTimeFormatSpecifier(CharAt(doc, p + 1)) then 2
    else if IsFormatSpecifier(CharAt(doc, p)) then 1
    else 0
  }

  /** The characters allowed between `%` and the conversion letter. */
  predicate IsSpecBodyChar(ch: char)
  {
    IsADigit(ch) || IsFormatFlag(ch) || ch == '<' || ch == '$' || ch == '.'
  }

  /** Every character between the `%` and the end of the argument index is a body character. */
  lemma IndexEndBody(doc: seq<char>, pos: nat)
    ensures pos + 1 <= IndexEnd(doc, pos)
    ensures forall k :: pos < k < IndexEnd(doc, pos) ==> IsSpecBodyChar(CharAt(doc, k))
  {
    var a := pos + 1 + (if CharAt(doc, pos + 1) == '<' then 1 else 0);
    AllDigitsAt(doc, a, DigitRun(doc, a));
  }

  /** Flags, width and precision consist of body characters. */
  lemma PrecisionEndBody(doc: seq<char>, c: nat)
    ensures c <= PrecisionEnd(doc, c)
    ensures forall k :: c <= k < PrecisionEnd(doc, c) ==> IsSpecBodyChar(CharAt(doc, k))
  {
    var d := c + FlagRun(doc, c);
    var w := d + DigitRun(doc, d);
    AllFlagsAt(doc, c, d - c);
    AllDigitsAt(doc, d, w - d);
    if CharAt(doc, w) == '.' {
      AllDigitsAt(doc, w + 1, DigitRun(doc, w + 1));
    }
  }

  /** A recognised specifier is `%%`, or a `%`, body characters, and a conversion
      letter (a `t`/`T` plus a date/time letter for the two-letter form). */
  lemma FormatSpecShape(doc: seq<char>, pos: nat, insideUrl: bool)
    ensures FormatSpecLength(doc, pos, insideUrl) == 0 || FormatSpecLength(doc, pos, insideUrl) >= 2
    ensures FormatSpecLength(doc, pos, insideUrl) != 0 && CharAt(doc, pos + 1) != '%' ==>
      forall k :: pos < k < pos + FormatSpecLength(doc, pos, insideUrl) - 1 ==>
        IsSpecBodyChar(CharAt(doc, k))
        || (k == pos + FormatSpecLength(doc, pos, insideUrl) - 2 && IsTimeConversion(CharAt(doc, k)))
    ensures FormatSpecLength(doc, pos, insideUrl) != 0 && CharAt(doc, pos + 1) != '%' ==>
      IsFormatSpecifier(CharAt(doc, pos + FormatSpecLength(doc, pos, insideUrl) - 1))
      || (IsTimeConversion(CharAt(doc, pos + FormatSpecLength(doc, pos, insideUrl) - 2))
          && IsDateTimeFormatSpecifier(CharAt(doc, pos + FormatSpecLength(doc, pos, insideUrl) - 1)))
  {
    var chNext := CharAt(doc, pos + 1);
    if chNext != '%' && !(insideUrl && IsHexDigit(chNext)) && !(IsASpaceOrTab(chNext) && IsADigit(CharAt(doc, pos - 1))) {
      ConvertedShape(doc, pos, insideUrl, FormatSpecLength(doc, pos, insideUrl));
    }
  }

  /** The shape of a specifier that gets past the two early rejections. */
  lemma ConvertedShape(doc: seq<char>, pos: nat, insideUrl: bool, n: nat)
    requires CharAt(doc, pos + 1) != '%' && !(insideUrl && IsHexDigit(CharAt(doc, pos + 1)))
    requires !(IsASpaceOrTab(CharAt(doc, pos + 1)) && IsADigit(CharAt(doc, pos - 1)))
    requires n == FormatSpecLength(doc, pos, insideUrl)
    ensures n == 0 || n >= 2
    ensures n != 0 ==>
      forall k :: pos < k < pos + n - 1 ==>
        IsSpecBodyChar(CharAt(doc, k)) || (k == pos + n - 2 && IsTimeConversion(CharAt(doc, k)))
    ensures n != 0 ==>
      IsFormatSpecifier(CharAt(doc, pos + n - 1))
      || (IsTimeConversion(CharAt(doc, pos + n - 2)) && IsDateTimeFormatSpecifier(CharAt(doc, pos + n - 1)))
  {
    var c := IndexEnd(doc, pos);
    IndexEndBody(doc, pos);
    PrecisionEndBody(doc, c);
    var p := PrecisionEnd(doc, c);
    ConversionLength(doc, pos, insideUrl, p);
    assert forall k :: pos < k < p ==> IsSpecBodyChar(CharAt(doc, k));
  }

  /** The two cases the source singles out return no specifier. */
  lemma FormatSpecRejects(doc: seq<char>, pos: nat, insideUrl: bool)
    requires CharAt(doc, pos + 1) != '%'
    requires (insideUrl && IsHexDigit(CharAt(doc, pos + 1)))
          || (IsASpaceOrTab(CharAt(doc, pos + 1)) && IsADigit(CharAt(doc, pos - 1)))
    ensures FormatSpecLength(doc, pos, insideUrl) == 0
  {
  }

  /** A date/time conversion takes its second letter with it. */
  lemma FormatSpecExampleDate()
    ensures FormatSpecLength("%tY", 0, false) == 3
  {
    var doc := "%tY";
    assert DigitRun(doc, 1) == 0;
    assert IndexEnd(doc, 0) == 1;
    assert FlagRun(doc, 1) == 0;
    assert PrecisionEnd(doc, 1) == 1;
    ConversionLength(doc, 0, false, 1);
  }

  lemma PrecisionEndIs(doc: seq<char>, c: nat, d: nat, w: nat, p: nat)
    requires d == c + FlagRun(doc, c) && w == d + DigitRun(doc, d)
    requires p == (if CharAt(doc, w) == '.' then w + 1 + DigitRun(doc, w + 1) else w)
    ensures p == PrecisionEnd(doc, c)
  {
  }

  /** Once the escapes are ruled out, the length follows from the conversion letter at p. */
  lemma ConversionLength(doc: seq<char>, pos: nat, insideUrl: bool, p: nat)
    requires CharAt(doc, pos + 1) != '%' && !(insideUrl && IsHexDigit(CharAt(doc, pos + 1)))
    requires !(IsASpaceOrTab(CharAt(doc, pos + 1)) && IsADigit(CharAt(doc, pos - 1)))
    requires p == PrecisionEnd(doc, IndexEnd(doc, pos))
    ensures FormatSpecLength(doc, pos, insideUrl) ==
      if IsTimeConversion(CharAt(doc, p)) && IsDateTimeFormatSpecifier(CharAt(doc, p + 1)) then p - pos + 2
      else if IsFormatSpecifier(CharAt(doc, p)) then p - pos + 1
      else 0
  {
  }

  /** A `%%` is always two characters, whatever surrounds it. */
  lemma FormatSpecPercent(doc: seq<char>, pos: nat, insideUrl: bool)
    requires CharAt(doc, pos + 1) == '%'
    ensures FormatSpecLength(doc, pos, insideUrl) == 2
  {
  }

  /** The n characters from i are digits and the one after them is not. */
  predicate MaximalDigits(doc: seq<char>, i: nat, n: nat)
  {
    AllDigits(doc, i, n) && !IsADigit(CharAt(doc, i + n))
  }

  /** The n characters from i are flags and the one after them is not. */
  predicate MaximalFlags(doc: seq<char>, i: nat, n: nat)
  {
    AllFlags(doc, i, n) && !IsFormatFlag(CharAt(doc, i + n))
  }

  /** The lengths of the parts of a specifier, in the order they are read after the `%`. */
  datatype SpecParts = SpecParts(index: nat, flags: nat, width: nat, precision: nat, conversion: nat)

  /** Total length of a specifier made of these parts, the `%` included. */
  function PartsLength(s: SpecParts): (n: nat)
    ensures n > s.conversion
  {
    1 + s.index + s.flags + s.width + s.precision + s.conversion
  }

  /** The argument-index part of n characters after the `%` at pos: a `<` and
      a digit run; digits closed by a `$`; or a digit run (possibly empty)
      that no `$` follows. */
  predicate IndexPart(doc: seq<char>, pos: nat, n: nat)
  {
    (CharAt(doc, pos + 1) == '<' && n >= 1 && MaximalDigits(doc, pos + 2, n - 1))
    || (n >= 2 && AllDigits(doc, pos + 1, n - 1) && CharAt(doc, pos + n) == '$')
    || (CharAt(doc, pos + 1) != '<' && MaximalDigits(doc, pos + 1, n)
        && (n == 0 || CharAt(doc, pos + 1 + n) != '$'))
  }

  /** The precision part of n characters at i: empty when no `.` is there,
      else the `.` and a digit run. */
  predicate PrecisionPart(doc: seq<char>, i: nat, n: nat)
  {
    (n == 0 && CharAt(doc, i) != '.')
    || (n >= 1 && CharAt(doc, i) == '.' && MaximalDigits(doc, i + 1, n - 1))
  }

  /** The conversion part of n characters at i: a `t`/`T` with a date/time letter,
      or one conversion letter. */
  predicate ConversionPart(doc: seq<char>, i: nat, n: nat)
  {
    n != 0 && n == ConversionAt(doc, i)
  }

  /** The text after the `%` at pos splits, in order, into the parts s describes:
      argument index, maximal flag run, maximal width digits, precision, conversion. */
  predicate SpecSplit(doc: seq<char>, pos: nat, s: SpecParts)
  {
    IndexPart(doc, pos, s.index)
    && MaximalFlags(doc, pos + 1 + s.index, s.flags)
    && MaximalDigits(doc, pos + 1 + s.index + s.flags, s.width)
    && PrecisionPart(doc, pos + 1 + s.index + s.flags + s.width, s.precision)
    && ConversionPart(doc, pos + 1 + s.index + s.flags + s.width + s.precision, s.conversion)
  }

  /** The source's two early rejections and `%%` do not apply at pos. */
  predicate PastEarlyChecks(doc: seq<char>, pos: nat, insideUrl: bool)
  {
    var chNext := CharAt(doc, pos + 1);
    chNext != '%' && !(insideUrl && IsHexDigit(chNext))
    && !(IsASpaceOrTab(chNext) && IsADigit(CharAt(doc, pos - 1)))
  }

  /** Past the early checks, the length is the conversion's length counted from
      where the precision ends. */
  lemma LengthAtConversion(doc: seq<char>, pos: nat, insideUrl: bool, c: nat, p: nat)
    requires PastEarlyChecks(doc, pos, insideUrl)
    requires IndexEnd(doc, pos) == c && PrecisionEnd(doc, c) == p
    ensures FormatSpecLength(doc, pos, insideUrl) == if ConversionAt(doc, p) == 0 then 0 else p - pos + ConversionAt(doc, p)
  {
  }

  /** A maximal digit run is what DigitRun measures. */
  lemma {:induction false} DigitRunIs(doc: seq<char>, i: nat, n: nat)
    requires MaximalDigits(doc, i, n)
    ensures DigitRun(doc, i) == n
    decreases n
  {
    if n > 0 {
      assert CharAt(doc, (i + 1) + (n - 1)) == CharAt(doc, i + n);
      DigitRunIs(doc, i + 1, n - 1);
    }
  }

  /** A maximal flag run is what FlagRun measures. */
  lemma {:induction false} FlagRunIs(doc: seq<char>, i: nat, n: nat)
    requires MaximalFlags(doc, i, n)
    ensures FlagRun(doc, i) == n
    decreases n
  {
    if n > 0 {
      assert CharAt(doc, (i + 1) + (n - 1)) == CharAt(doc, i + n);
      FlagRunIs(doc, i + 1, n - 1);
    }
  }

  /** The argument-index part ends where the source's index scan stops. */
  lemma IndexPartEnd(doc: seq<char>, pos: nat, n: nat)
    requires IndexPart(doc, pos, n)
    ensures IndexEnd(doc, pos) == pos + 1 + n
  {
    if CharAt(doc, pos + 1) == '<' {
      DigitRunIs(doc, pos + 2, n - 1);
    } else if n >= 2 && AllDigits(doc, pos + 1, n - 1) && CharAt(doc, pos + n) == '$' {
      DigitRunIs(doc, pos + 1, n - 1);
    } else {
      DigitRunIs(doc, pos + 1, n);
    }
  }

  /** Flags, width and precision parts end where the source's scan of them stops. */
  lemma PartsPrecisionEnd(doc: seq<char>, c: nat, f: nat, w: nat, p: nat)
    requires MaximalFlags(doc, c, f) && MaximalDigits(doc, c + f, w)
    requires PrecisionPart(doc, c + f + w, p)
    ensures PrecisionEnd(doc, c) == c + f + w + p
  {
    FlagRunIs(doc, c, f);
    DigitRunIs(doc, c + f, w);
    if p > 0 {
      DigitRunIs(doc, c + f + w + 1, p - 1);
    }
  }

  /** Completeness: a `%` followed by the ordered parts of s is recognised, and
      its length is the total length of the parts. */
  lemma FormatSpecComplete(doc: seq<char>, pos: nat, insideUrl: bool, s: SpecParts)
    requires PastEarlyChecks(doc, pos, insideUrl)
    requires SpecSplit(doc, pos, s)
    ensures FormatSpecLength(doc, pos, insideUrl) == PartsLength(s)
  {
    var c := pos + 1 + s.index;
    var p := c + s.flags + s.width + s.precision;
    IndexPartEnd(doc, pos, s.index);
    PartsPrecisionEnd(doc, c, s.flags, s.width, s.precision);
    LengthAtConversion(doc, pos, insideUrl, c, p);
  }

  /** The source's index scan reads an argument-index part. */
  lemma IndexEndPart(doc: seq<char>, pos: nat) returns (n: nat)
    ensures IndexPart(doc, pos, n) && IndexEnd(doc, pos) == pos + 1 + n
  {
    n := IndexEnd(doc, pos) - pos - 1;
  }

  /** The source's scan of flags, width and precision reads those three parts. */
  lemma PrecisionEndParts(doc: seq<char>, c: nat) returns (f: nat, w: nat, p: nat)
    ensures MaximalFlags(doc, c, f) && MaximalDigits(doc, c + f, w)
    ensures PrecisionPart(doc, c + f + w, p)
    ensures c + f + w + p == PrecisionEnd(doc, c)
  {
    f := FlagRun(doc, c);
    w := DigitRun(doc, c + f);
    p := PrecisionEnd(doc, c) - (c + f + w);
  }

  /** The parts the source's scan reads before the conversion, ending where it stops. */
  lemma ScannedParts(doc: seq<char>, pos: nat) returns (s: SpecParts)
    ensures IndexPart(doc, pos, s.index)
    ensures MaximalFlags(doc, pos + 1 + s.index, s.flags)
    ensures MaximalDigits(doc, pos + 1 + s.index + s.flags, s.width)
    ensures PrecisionPart(doc, pos + 1 + s.index + s.flags + s.width, s.precision)
    ensures IndexEnd(doc, pos) == pos + 1 + s.index
    ensures PrecisionEnd(doc, pos + 1 + s.index) == pos + 1 + s.index + s.flags + s.width + s.precision
  {
    var n := IndexEndPart(doc, pos);
    var f, w, p := PrecisionEndParts(doc, pos + 1 + n);
    s := SpecParts(n, f, w, p, 0);
  }

  /** The split the source's scan reads, when it recognises a specifier. */
  lemma ScannedSplit(doc: seq<char>, pos: nat, insideUrl: bool) returns (s: SpecParts)
    requires PastEarlyChecks(doc, pos, insideUrl)
    requires FormatSpecLength(doc, pos, insideUrl) != 0
    ensures SpecSplit(doc, pos, s) && FormatSpecLength(doc, pos, insideUrl) == PartsLength(s)
  {
    var t := ScannedParts(doc, pos);
    var c := pos + 1 + t.index;
    var p := c + t.flags + t.width + t.precision;
    LengthAtConversion(doc, pos, insideUrl, c, p);
    s := t.(conversion := ConversionAt(doc, p));
  }

  /** Soundness: every specifier other than `%%` splits into the ordered parts,
      and its length is their total length. */
  lemma FormatSpecSplits(doc: seq<char>, pos: nat, insideUrl: bool)
    requires CharAt(doc, pos + 1) != '%'
    requires FormatSpecLength(doc, pos, insideUrl) != 0
    ensures PastEarlyChecks(doc, pos, insideUrl)
    ensures exists s :: SpecSplit(doc, pos, s) && FormatSpecLength(doc, pos, insideUrl) == PartsLength(s)
  {
    var s := ScannedSplit(doc, pos, insideUrl);
  }

  /** The argument-index part has one length. */
  lemma IndexPartUnique(doc: seq<char>, pos: nat, n: nat, m: nat)
    requires IndexPart(doc, pos, n) && IndexPart(doc, pos, m)
    ensures n == m
  {
    IndexPartEnd(doc, pos, n);
    IndexPartEnd(doc, pos, m);
  }

  /** Flags, width and precision parts starting at c have one set of lengths. */
  lemma PrecisionPartsUnique(doc: seq<char>, c: nat, f: nat, w: nat, p: nat, f': nat, w': nat, p': nat)
    requires MaximalFlags(doc, c, f) && MaximalDigits(doc, c + f, w) && PrecisionPart(doc, c + f + w, p)
    requires MaximalFlags(doc, c, f') && MaximalDigits(doc, c + f', w') && PrecisionPart(doc, c + f' + w', p')
    ensures f == f' && w == w' && p == p'
  {
    FlagRunIs(doc, c, f);
    FlagRunIs(doc, c, f');
    DigitRunIs(doc, c + f, w);
    DigitRunIs(doc, c + f, w');
    PartsPrecisionEnd(doc, c, f, w, p);
    PartsPrecisionEnd(doc, c, f', w', p');
  }

  /** The split is unique, so the parts of a recognised specifier are determined. */
  lemma SpecSplitUnique(doc: seq<char>, pos: nat, s: SpecParts, t: SpecParts)
    requires SpecSplit(doc, pos, s) && SpecSplit(doc, pos, t)
    ensures s == t
  {
    IndexPartUnique(doc, pos, s.index, t.index);
    PrecisionPartsUnique(doc, pos + 1 + s.index, s.flags, s.width, s.precision, t.flags, t.width, t.precision);
  }

  /** Past the early checks, a specifier is recognised exactly when the text splits
      into the ordered parts. */
  lemma FormatSpecIff(doc: seq<char>, pos: nat, insideUrl: bool)
    requires PastEarlyChecks(doc, pos, insideUrl)
    ensures FormatSpecLength(doc, pos, insideUrl) != 0 <==> exists s :: SpecSplit(doc, pos, s)
  {
    if FormatSpecLength(doc, pos, insideUrl) != 0 {
      FormatSpecSplits(doc, pos, insideUrl);
    } else if s :| SpecSplit(doc, pos, s) {
      FormatSpecComplete(doc, pos, insideUrl, s);
    }
  }

  /** `%1$s`: a numeric argument index with its `$`. */
  lemma FormatSpecExampleIndex()
    ensures FormatSpecLength("%1$s", 0, false) == 4
  {
    FormatSpecComplete("%1$s", 0, false, SpecParts(2, 0, 0, 0, 1));
  }

  /** `%<5d`: after `<` the digits are read as part of the index. */
  lemma FormatSpecExampleRelative()
    ensures FormatSpecLength("%<5d", 0, false) == 4
  {
    FormatSpecComplete("%<5d", 0, false, SpecParts(2, 0, 0, 0, 1));
  }

  /** `while (IsADigit(ch)) ch = styler[++pos];` */
  method SkipDigits(doc: seq<char>, start: nat) returns (pos: nat, ch: char)
    ensures pos == start + DigitRun(doc, start) && ch == CharAt(doc, pos)
  {
    pos := start;
    ch := CharAt(doc, pos);
    while IsADigit(ch)
      invariant ch == CharAt(doc, pos)
      invariant start <= pos && DigitRun(doc, start) == (pos - start) + DigitRun(doc, pos)
      decreases |doc| - pos
    {
      pos := pos + 1;
      ch := CharAt(doc, pos);
    }
  }

  /** The loop over the flag characters. */
  method SkipFlags(doc: seq<char>, start: nat) returns (pos: nat, ch: char)
    ensures pos == start + FlagRun(doc, start) && ch == CharAt(doc, pos)
  {
    pos := start;
    ch := CharAt(doc, pos);
    while IsFormatFlag(ch)
      invariant ch == CharAt(doc, pos)
      invariant start <= pos && FlagRun(doc, start) == (pos - start) + FlagRun(doc, pos)
      decreases |doc| - pos
    {
      pos := pos + 1;
      ch := CharAt(doc, pos);
    }
  }

  /** [argument_index$]: an optional `<`, digits, and a `$` when the index is numeric. */
  method SkipArgumentIndex(doc: seq<char>, currentPos: nat) returns (pos: nat, ch: char)
    ensures pos == IndexEnd(doc, currentPos) && ch == CharAt(doc, pos)
  {
    var chNext := CharAt(doc, currentPos + 1);
    pos := currentPos + 1;
    if chNext == '<' {
      pos := pos + 1;
    }
    pos, ch := SkipDigits(doc, pos);
    if ch == '$' && IsADigit(chNext) {
      pos := pos + 1;
      ch := CharAt(doc, pos);
    }
  }

  /** [flags][width][.precision] */
  method SkipPrecision(doc: seq<char>, start: nat) returns (pos: nat, ch: char)
    ensures pos == PrecisionEnd(doc, start) && ch == CharAt(doc, pos)
  {
    pos, ch := SkipFlags(doc, start);
    ghost var d := pos;
    pos, ch := SkipDigits(doc, pos);
    ghost var w := pos;
    if ch == '.' {
      pos, ch := SkipDigits(doc, pos + 1);
    }
    PrecisionEndIs(doc, start, d, w, pos);
  }

  /** CheckFormatSpecifier: walks a moving index over the specifier's parts. */
  method CheckFormatSpecifier(doc: seq<char>, currentPos: nat, insideUrl: bool) returns (n: int)
    ensures n == FormatSpecLength(doc, currentPos, insideUrl)
  {
    var chNext := CharAt(doc, currentPos + 1);
    if chNext == '%' {
      return 2;
    }
    if insideUrl && IsHexDigit(chNext) {
      // percent-encoded URL
      return 0;
    }
    if IsASpaceOrTab(chNext) && IsADigit(CharAt(doc, currentPos - 1)) {
      // the word after a percentage: "5% x"
      return 0;
    }
    var pos, ch := SkipArgumentIndex(doc, currentPos);
    pos, ch := SkipPrecision(doc, pos);
    ConversionLength(doc, currentPos, insideUrl, pos);
    if ch == 't' || ch == 'T' {
      var next := CharAt(doc, pos + 1);
      if IsDateTimeFormatSpecifier(next) {
        return pos - currentPos + 2;
      }
    }
    if IsFormatSpecifier(ch) {
      return pos - currentPos + 1;
    }
    return 0;
  }
}
