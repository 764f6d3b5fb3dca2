# Java and Vim lexers of Notepad2, modelled in Dafny

This project models two of Notepad2's Scintilla lexers: the Java lexer
(`LexJava.cxx`) and the Vim script lexer (`LexVim.cxx`). Each lexer has two
parts:

- a **colouriser** walks a range of the document with a style cursor and
  gives every character a style. It also stores a per-line state word.
- a **folder** reads those styles and line states back and stores a fold level
  for each line. The fold level packs the line's level, the next line's level
  and a header flag.

The model is in these modules:

- `StyleContext` is the lexer library's cursor, as a pure value. `SetState`
  closes the open span, `ChangeState` relabels it, `Forward` advances and does
  nothing at the end of the range, `Rewind` steps back, and `Complete` flushes.
- `CharClass` holds the character predicates. `FoldLevel` holds the
  fold-level word.
- For each language:
  - a styles module gives the style tags and the line-state encoding.
  - an escape module gives the escape sub-scanner. It is a datatype, plus a
    class whose methods are proved against it.
  - the colouriser is `Step`, one loop iteration as a function of all loop
    variables, and `Run`, which iterates it. The colouriser method is the loop
    itself, and it is proved equal to `Run`.
  - a props module proves what runs of iterations do. Repeated application
    of a step is the shared `Iteration` module.
  - the folder is a record of loop variables with `FoldStep`, `LineEnd` and
    `FoldRun`. It is driven by a method whose loop is proved equal to `FoldRun`.
- `JavaFormat` recognises `java.util.Formatter` specifiers. It has the scanning
  method, the length function that specifies it, and an independent description
  of a specifier as ordered parts (`SpecSplit`) that the length is proved to match.
- `JavaKeywords` holds the keyword tables and the identifier-role heuristics.

## Model

| member | source | states |
|---|---|---|
| CharClass.CharAt | scintilla/lexers/LexJava.cxx:143-167 | reading outside the document gives NUL, inside gives the character |
| CharClass.DigitRun | scintilla/lexers/LexJava.cxx:144-146 | the run consists of digits, stays in the document, and is followed by a non-digit |
| CharClass.AllDigitsAt | scintilla/lexers/LexJava.cxx:144-146 | every character of a digit run is a digit |
| CharClass.OctalOrHexRun | scintilla/lexers/LexJava.cxx:50-53 | the run consists of digits of the escape's base and ends at the first non-digit |
| StyleContext.NextLineStart | scintilla/lexers/LexJava.cxx:289 | the next line start lies after i, no line feed comes before it, and a line feed comes just before it |
| StyleContext.LineNextNonSpace | scintilla/lexers/LexVim.cxx:135 | the next visible character on the line is never a line feed |
| StyleContext.NextNonSpace | scintilla/lexers/LexJava.cxx:284 | the next visible character in the document is NUL or not a space |
| StyleContext.Cursor.SetState | scintilla/lexers/LexJava.cxx:231 | the open span is styled in the old state, earlier styles are kept, and a new span opens at the cursor |
| StyleContext.Cursor.ChangeState | scintilla/lexers/LexJava.cxx:254 | only the state changes |
| StyleContext.Cursor.Forward | scintilla/lexers/LexJava.cxx:565 | moves one position, never past the end of the range, and changes nothing else |
| StyleContext.Cursor.ForwardBy | scintilla/lexers/LexJava.cxx:453 | moves n positions, clamped at the end of the range |
| StyleContext.Cursor.Rewind | scintilla/lexers/LexJava.cxx:487 | moves back one position, never before the open span |
| StyleContext.Cursor.Complete | scintilla/lexers/LexJava.cxx:568 | every position of the range has a style, earlier styles are kept, and the open span gets the current state |
| StyleContext.NewCursor | scintilla/lexers/LexJava.cxx:203 | a valid cursor at the start of the range with nothing styled yet |
| FoldLevel.PackLevelDecode | scintilla/lexers/LexJava.cxx:652-657 | the packed word gives back the next level (bits 16 and up) and the current level (low bits), and it is a header iff the level rises |
| JavaEscape.Budget | scintilla/lexers/LexJava.cxx:40-47 | the digit budget is 1, 3 or 5 |
| JavaEscape.ResetEscapeBudget | scintilla/lexers/LexJava.cxx:35-49 | an escape starts iff the next character is not a line end, and then records the outer style: budget 5 and hexadecimal for `\u`, 3 and octal for an octal digit, 1 otherwise. With no escape nothing changes |
| JavaEscape.EscapeDigitsLength | scintilla/lexers/LexJava.cxx:50-53 | an escape takes the digits of its base up to one less than its budget |
| JavaEscape.EscapeSequence.constructor | scintilla/lexers/LexJava.cxx:29-33 | starts as outer style DEFAULT, no digits left, not hexadecimal |
| JavaEscape.EscapeSequence.ResetEscapeState | scintilla/lexers/LexJava.cxx:35-49 | the result and the new fields are those of ResetEscape |
| JavaEscape.EscapeSequence.AtEscapeEnd | scintilla/lexers/LexJava.cxx:50-53 | decrements the budget and reports the end exactly as EscapeEnd |
| JavaStyles.StyleComparisons | scintilla/lexers/LexJava.cxx:97-99 | IsSpaceEquiv is "style number at most TASKMARKER", and among strings single-line is "at most TEMPLATE" (line 434). Style numbers are distinct |
| JavaStyles.RoleStyle | scintilla/lexers/LexJava.cxx:313-314 | a role keyword gives a code style that is not a comment, string or plain identifier |
| JavaStyles.NestedStyle | scintilla/lexers/LexJava.cxx:213 | every decoded stack entry is DEFAULT or a template |
| JavaStyles.UnpackPackNested | scintilla/lexers/LexJava.cxx:211-214 | the packed stack is non-zero iff the stack is non-empty, and unpacking gives back its innermost three entries |
| JavaStyles.RestoreJavaLineState | scintilla/lexers/LexJava.cxx:204-215 | the line state written at a line end (line 556) restores the template stack at the next range start |
| JavaStyles.FoldLineStateOf | scintilla/lexers/LexJava.cxx:571-578 | both fold bits are 0 or 1 |
| JavaStyles.FoldLineStateOfJavaLineState | scintilla/lexers/LexJava.cxx:571-578 | the folder reads the line-comment and import bits the colouriser wrote, whatever the stack |
| JavaFormat.FlagRun | scintilla/lexers/LexJava.cxx:151-153 | the run consists of flag characters and ends at a non-flag |
| JavaFormat.AllFlagsAt | scintilla/lexers/LexJava.cxx:151-153 | every character of a flag run is a flag |
| JavaFormat.IndexEndBody | scintilla/lexers/LexJava.cxx:138-149 | the argument index spans only digits, `<` and `$` |
| JavaFormat.PrecisionEndBody | scintilla/lexers/LexJava.cxx:151-164 | flags, width and precision span only specifier-body characters |
| JavaFormat.FormatSpecShape | scintilla/lexers/LexJava.cxx:125-176 | the length is 0 or at least 2. A specifier other than `%%` is body characters ending in a conversion letter (IsFormatSpecifier), or in `t`/`T` and a date/time letter (IsDateTimeFormatSpecifier); the order of the body is stated by FormatSpecSplits |
| JavaFormat.ConvertedShape | scintilla/lexers/LexJava.cxx:138-176 | the same shape, once the early returns are excluded |
| JavaFormat.FormatSpecRejects | scintilla/lexers/LexJava.cxx:129-136 | a hex digit after `%` inside a URL, or a blank after `%` after a digit, is no specifier |
| JavaFormat.FormatSpecExampleDate | scintilla/lexers/LexJava.cxx:166-170 | `%tY` is a specifier of length 3 |
| JavaFormat.ConversionLength | scintilla/lexers/LexJava.cxx:165-175 | after the body, a date/time conversion counts two characters, a plain conversion one, anything else rejects |
| JavaFormat.FormatSpecPercent | scintilla/lexers/LexJava.cxx:126-128 | `%%` is two characters whatever precedes it and whether or not inside a URL |
| JavaFormat.DigitRunIs | scintilla/lexers/LexJava.cxx:144-146 | a maximal run of digits is exactly what the digit loop skips |
| JavaFormat.FlagRunIs | scintilla/lexers/LexJava.cxx:151-153 | a maximal run of flags is exactly what the flag loop skips |
| JavaFormat.IndexPartEnd | scintilla/lexers/LexJava.cxx:138-149 | an argument-index part (`<` and digits; digits and `$`; digits no `$` follows) ends where the index scan stops |
| JavaFormat.PartsPrecisionEnd | scintilla/lexers/LexJava.cxx:151-164 | maximal flags, maximal width digits and an optional `.` with maximal digits end where the scan of them stops |
| JavaFormat.FormatSpecComplete | scintilla/lexers/LexJava.cxx:125-176 | completeness: when neither `%%` nor an early return applies, a `%` followed in order by an argument index, maximal flags, maximal width digits, an optional `.` with maximal digits, and a conversion letter (or `t`/`T` and a date/time letter) is recognised, and its length is the total of the parts |
| JavaFormat.FormatSpecSplits | scintilla/lexers/LexJava.cxx:125-176 | soundness: every recognised specifier other than `%%` is past the early returns and splits into those ordered parts, and its length is their total |
| JavaFormat.SpecSplitUnique | scintilla/lexers/LexJava.cxx:138-176 | the ordered split is unique, so a recognised specifier's parts are determined |
| JavaFormat.FormatSpecIff | scintilla/lexers/LexJava.cxx:138-176 | past the early returns, a specifier is recognised iff its text splits into the ordered parts |
| JavaFormat.FormatSpecExampleIndex | scintilla/lexers/LexJava.cxx:138-149 | `%1$s` is a specifier of length 4 |
| JavaFormat.FormatSpecExampleRelative | scintilla/lexers/LexJava.cxx:138-149 | `%<5d` is a specifier of length 4: after `<` the digits are skipped by the index loop |
| JavaFormat.SkipDigits | scintilla/lexers/LexJava.cxx:144-146 | stops after the run of digits, on the character that ends it |
| JavaFormat.SkipFlags | scintilla/lexers/LexJava.cxx:151-153 | stops after the run of flags |
| JavaFormat.SkipArgumentIndex | scintilla/lexers/LexJava.cxx:138-149 | stops after `[<]digits[$]` where IndexEnd says |
| JavaFormat.SkipPrecision | scintilla/lexers/LexJava.cxx:151-164 | stops after flags, width and precision where PrecisionEnd says |
| JavaFormat.CheckFormatSpecifier | scintilla/lexers/LexJava.cxx:125-176 | the loop returns FormatSpecLength: 2 for `%%` (FormatSpecPercent), otherwise the total length of the unique ordered split into index, flags, width, precision and conversion, or 0 when there is none (FormatSpecComplete, FormatSpecSplits, SpecSplitUnique) |
| JavaKeywords.IdentifierRoleMeaning | scintilla/lexers/LexJava.cxx:316-345 | the heuristic role is CLASS, FUNCTION, FUNCTION_DEFINITION or stays IDENTIFIER. A function role occurs only before `(`. Before `)` it is CLASS iff the identifier is a cast. Before `(` it is a definition iff the previous word is a type and no `return` came before. Before another identifier start it is CLASS |
| JavaKeywords.FirstHitIsFirst | scintilla/lexers/LexJava.cxx:260-304 | the first table that holds the word decides its style |
| JavaKeywords.FirstHitNone | scintilla/lexers/LexJava.cxx:260-304 | no table style iff no table holds the word |
| JavaKeywords.TableStyleIsFirstHit | scintilla/lexers/LexJava.cxx:260-304 | the if-ladder of the lexer is the first hit in the fixed table order (keywords, `non-sealed`, types, directives, classes, interfaces, enums, constants) |
| JavaKeywords.FirstHitIndex | scintilla/lexers/LexJava.cxx:260-304 | when some table hits, there is a first one |
| JavaKeywords.SealedCopy | scintilla/lexers/LexJava.cxx:179-180 | the copy is eight bytes long |
| JavaKeywords.MatchSealedCopy | scintilla/lexers/LexJava.cxx:178-186 | MatchSealed holds iff the 8-byte copy (at most 7 characters, then NUL) starts with `ealed` followed by a byte that is at most a blank or is `/` |
| JavaLexer.ClassifyWord | scintilla/lexers/LexJava.cxx:250-347 | only the state and, for `non-sealed`, the position change. The position moves 7 past `non` exactly then |
| JavaLexer.BranchOf | scintilla/lexers/LexJava.cxx:228-495 | the switch's case groups: string states, operators, identifiers/annotations, doc tags |
| JavaLexer.Step | scintilla/lexers/LexJava.cxx:227-566 | one iteration keeps the styles already given and makes progress |
| JavaLexer.Run | scintilla/lexers/LexJava.cxx:227-566 | the loop ends at the end of the range, keeping all styles given |
| JavaLexer.InitScan | scintilla/lexers/LexJava.cxx:189-225 | the scan starts at the range start with nothing styled and no line state written |
| JavaLexer.ColouriseJava | scintilla/lexers/LexJava.cxx:188-569 | one style per character of the range |
| JavaLexer.ColouriseJavaDoc | scintilla/lexers/LexJava.cxx:188-569 | the loop computes ColouriseJava: one style per character, and the line states |
| JavaLexerProps.StepIsBody | scintilla/lexers/LexJava.cxx:227-566 | an iteration is the state's case, then the common tail unless the case continues |
| JavaLexerProps.RunSteps | scintilla/lexers/LexJava.cxx:227-566 | running from any later iteration gives the same result |
| JavaLexerProps.StepEscapeEnds | scintilla/lexers/LexJava.cxx:475-479 | when the escape ends, the outer string resumes at that character |
| JavaLexerProps.StepEscapeGoesOn | scintilla/lexers/LexJava.cxx:475-480 | otherwise the escape goes on one character |
| JavaLexerProps.StepInPlaceholder | scintilla/lexers/LexJava.cxx:482-494 | digits extend a placeholder, `}` closes it, and anything else relabels it as the string and resumes after it |
| JavaLexerProps.EscapeSpan | scintilla/lexers/LexJava.cxx:436-444 | a backslash in a string starts an escape of EscapeLength characters (2 to 6), after which the string resumes |
| JavaLexerProps.UnicodeEscapeLength | scintilla/lexers/LexJava.cxx:41-43 | `\u0041` is six characters long as an escape |
| JavaLexerProps.UnicodeEscapeSpan | scintilla/lexers/LexJava.cxx:436-444 | `\u0041` in a string is one six-character escape |
| JavaLexerProps.InterpolationOpens | scintilla/lexers/LexJava.cxx:437-440 | `\{` in a template pushes the template and styles both characters as an interpolation operator |
| JavaLexerProps.InterpolationBraceOpens | scintilla/lexers/LexJava.cxx:535-538 | inside an interpolation `{` pushes a block entry |
| JavaLexerProps.InterpolationBraceCloses | scintilla/lexers/LexJava.cxx:539-543 | inside an interpolation `}` pops the innermost entry and resumes its style |
| JavaLexerProps.EmptyInterpolationRoundTrip | scintilla/lexers/LexJava.cxx:437-543 | `\{}` is three operator characters, and the stack and the template are as before |
| JavaLexerProps.PlaceholderSpan | scintilla/lexers/LexJava.cxx:457-494 | `{digits}` in a string is one placeholder from brace to brace |
| JavaLexerProps.PlaceholderUndone | scintilla/lexers/LexJava.cxx:482-494 | `{digits` without `}` stays part of the string |
| JavaLexerProps.FormatSpecifierSpan | scintilla/lexers/LexJava.cxx:448-456 | a specifier of FormatSpecLength characters is styled as one, then the string resumes |
| JavaLexerProps.FormatCaseSpan | scintilla/lexers/LexJava.cxx:450-455 | the n characters after `%` get the format style and the string state is restored |
| JavaLexerProps.WordTableStyle | scintilla/lexers/LexJava.cxx:260-304 | a finished word in a table gets the first table's style (`non-sealed` as one keyword) |
| JavaLexerProps.WordRoleStyle | scintilla/lexers/LexJava.cxx:312-346 | a word in no table gets the role keyword's style, or else the heuristic role |
| JavaLexerProps.WordColonStyle | scintilla/lexers/LexJava.cxx:305-311 | a word before `::` is a type, before `:` after a statement boundary a label |
| JavaLexerProps.AtInterfaceStyle | scintilla/lexers/LexJava.cxx:252-255 | `@interface` is a keyword and sets the annotation role |
| JavaLexerProps.AtAnnotationStyle | scintilla/lexers/LexJava.cxx:256-258 | any other `@word` becomes an annotation without moving on |
| JavaLexerProps.LineCommentMarksLine | scintilla/lexers/LexJava.cxx:498-503 | `//` opens a line comment and marks the line iff nothing visible came before |
| JavaLexerProps.ImportMarksLine | scintilla/lexers/LexJava.cxx:262-265 | `import` as the first word marks the line as an import |
| JavaLexerProps.TailWritesLineState | scintilla/lexers/LexJava.cxx:554-558 | at a line feed the line type and the packed stack are written for the current line |
| JavaLexerProps.LineStateRoundTrip | scintilla/lexers/LexJava.cxx:204-215 | a range restarting on the next line reads back the stack (up to three deep) |
| JavaLexerProps.LineStateFoldBits | scintilla/lexers/LexJava.cxx:554-578 | the folder's bits for a finished line are its comment and import marks |
| JavaLexerProps.RestartRestoresNested | scintilla/lexers/LexJava.cxx:204-215 | a range starting on a later line restores the stack stored for the line before |
| JavaLexerProps.SingleLineStringEnds | scintilla/lexers/LexJava.cxx:434-435 | a character, string or single-line template ends at the end of its line |
| JavaLexerProps.StylesKept | scintilla/lexers/LexJava.cxx:227-568 | whatever some iterations style is part of the final styles |
| JavaFold.FoldDelta | scintilla/lexers/LexJava.cxx:608-630 | one character changes the level by at most one |
| JavaFold.BraceOnNextLine | scintilla/lexers/LexJava.cxx:588 | a brace found is a `{` on the next line |
| JavaFold.FoldInit | scintilla/lexers/LexJava.cxx:581-601 | the start state satisfies the loop invariant on the start line |
| JavaFold.FoldStep | scintilla/lexers/LexJava.cxx:603-666 | one iteration keeps the invariant and moves forward |
| JavaFold.EndOfLine | scintilla/lexers/LexJava.cxx:635-666 | the imperative line end computes LineEnd |
| JavaFold.FoldChar | scintilla/lexers/LexJava.cxx:603-666 | the imperative iteration computes FoldStep |
| JavaFold.FoldStart | scintilla/lexers/LexJava.cxx:581-601 | the imperative set-up computes FoldInit |
| JavaFold.FoldJavaDoc | scintilla/lexers/LexJava.cxx:580-668 | the loop stores exactly the levels FoldRun computes |
| JavaFold.WithinLineLevel | scintilla/lexers/LexJava.cxx:603-634 | within a line the next level moves by the sum of the per-character deltas, and nothing is stored |
| JavaFold.SpanNetsZero | scintilla/lexers/LexJava.cxx:609-619 | a complete block comment, doc comment or text block on one line nets zero |
| JavaFold.BracketBalance | scintilla/lexers/LexJava.cxx:621-629 | across operator characters the level moves by opening minus closing brackets |
| JavaFold.LineEndStores | scintilla/lexers/LexJava.cxx:652-665 | the line's packed level is stored, the next line starts at the new level, and the fold bits shift |
| JavaFold.LineEndClamp | scintilla/lexers/LexJava.cxx:637-650 | the next level is at least the base minus one. It is at least the base unless the line is a comment or import line, and a brace joined from the next line puts it above the base |
| JavaFold.LineEndBrace | scintilla/lexers/LexJava.cxx:642-649 | with a brace on the next line the scan skips past that brace, otherwise it stays put |
| JavaFold.HeaderIffRises | scintilla/lexers/LexJava.cxx:652-657 | a line is a header iff its level rises, and the word gives the next level back |
| JavaFold.RestartReadsStoredLevel | scintilla/lexers/LexJava.cxx:585-594 | a later start resumes from the next level stored for the line before |
| JavaFold.StepStores | scintilla/lexers/LexJava.cxx:603-666 | an iteration changes only the current line's level, and stores it when it moves to the next line |
| JavaFold.RunKeepsEarlierLines | scintilla/lexers/LexJava.cxx:603-667 | lines before the start line keep their levels |
| JavaFold.RunStoresFinishedLines | scintilla/lexers/LexJava.cxx:603-667 | every line finished in the range gets a level |
| VimStyles.Encode | scintilla/lexers/LexVim.cxx:59-64 | the stored word is four bits |
| VimStyles.EncodeBits | scintilla/lexers/LexVim.cxx:59-64 | each flag is read back from its own bit |
| VimStyles.RestoreCarries | scintilla/lexers/LexVim.cxx:88-90 | the next range start keeps exactly the autocmd and Vim9 bits, as the line end does (line 276) |
| VimStyles.FoldLineStateOf | scintilla/lexers/LexVim.cxx:287-294 | both fold bits are 0 or 1 |
| VimStyles.FoldLineStateOfEncode | scintilla/lexers/LexVim.cxx:287-294 | the folder reads back the comment and continuation flags |
| VimEscape.ResetEscapeTable | scintilla/lexers/LexVim.cxx:27-52 | an escape starts iff the next character is x/X (3, hex), u (5), U (9), an octal digit (3, octal) or one of `\ " b e f n r t` (1). Otherwise the budget is 0 |
| VimEscape.SingleCharEscapeEnds | scintilla/lexers/LexVim.cxx:48-55 | a single-character escape ends at the next character |
| VimEscape.EscapeDigitsLength | scintilla/lexers/LexVim.cxx:53-56 | an escape takes the digits of its base up to one less than its budget |
| VimEscape.EscapeSequence.constructor | scintilla/lexers/LexVim.cxx:31-33 | starts with no digits left, not hexadecimal |
| VimEscape.EscapeSequence.ResetEscapeState | scintilla/lexers/LexVim.cxx:35-52 | the result and the new fields are those of ResetEscape |
| VimEscape.EscapeSequence.AtEscapeEnd | scintilla/lexers/LexVim.cxx:53-56 | decrements the budget and reports the end exactly as EscapeEnd |
| VimLexer.KeywordEnd | scintilla/lexers/LexVim.cxx:116-130 | only the state changes in the cursor |
| VimLexer.CommandEnd | scintilla/lexers/LexVim.cxx:131-142 | the word is relabelled as a command and nothing else in the cursor changes |
| VimLexer.WordEnd | scintilla/lexers/LexVim.cxx:110-148 | a finished word is styled, and the scan goes back to DEFAULT keeping the styles given |
| VimLexer.EscapeCase | scintilla/lexers/LexVim.cxx:163-168 | an ending escape returns to the double-quoted string at the same character |
| VimLexer.DoubledQuote | scintilla/lexers/LexVim.cxx:173-179 | `''` moves forward |
| VimLexer.StringSqCase | scintilla/lexers/LexVim.cxx:170-182 | a continuing case has moved forward |
| VimLexer.CountVisible | scintilla/lexers/LexVim.cxx:262-272 | only the flags and the two visible counts change |
| VimLexer.EndLine | scintilla/lexers/LexVim.cxx:274-280 | the cursor, escape and keyword state are untouched |
| VimLexer.Step | scintilla/lexers/LexVim.cxx:98-282 | one iteration keeps the styles already given and makes progress |
| VimLexer.Run | scintilla/lexers/LexVim.cxx:98-282 | the loop ends at the end of the range |
| VimLexer.InitScan | scintilla/lexers/LexVim.cxx:79-96 | the scan starts at the range start with nothing styled |
| VimLexer.ColouriseVim | scintilla/lexers/LexVim.cxx:78-285 | one style per character of the range |
| VimLexer.ColouriseVimDoc | scintilla/lexers/LexVim.cxx:78-285 | the loop computes ColouriseVim |
| VimLexerProps.StepIsBody | scintilla/lexers/LexVim.cxx:98-282 | an iteration is the state's case, then the tail unless the case continues |
| VimLexerProps.RunSteps | scintilla/lexers/LexVim.cxx:98-282 | running from any later iteration gives the same result |
| VimLexerProps.DqBackslashSkips | scintilla/lexers/LexVim.cxx:153-157 | a backslash that starts no escape skips the next character inside the string |
| VimLexerProps.StepInEscape | scintilla/lexers/LexVim.cxx:163-168 | an escape either ends and returns to the string or goes on one character |
| VimLexerProps.EscapeSpan | scintilla/lexers/LexVim.cxx:153-168 | an escape covers EscapeLength characters, then the string resumes |
| VimLexerProps.SingleCharEscapeLength | scintilla/lexers/LexVim.cxx:48-50 | `\n` and the like are two characters |
| VimLexerProps.HexEscapeLength | scintilla/lexers/LexVim.cxx:39-40 | `\x` with two hex digits is four characters |
| VimLexerProps.OctalEscapeLength | scintilla/lexers/LexVim.cxx:45-47 | a backslash and three octal digits is four characters |
| VimLexerProps.HexEscapeSpan | scintilla/lexers/LexVim.cxx:153-168 | `\x41` in a string is one four-character escape |
| VimLexerProps.DqQuoteCloses | scintilla/lexers/LexVim.cxx:158-159 | `"` closes the string including itself |
| VimLexerProps.DoubledQuoteSpan | scintilla/lexers/LexVim.cxx:173-179 | `''` is a two-character escape inside a single-quoted string |
| VimLexerProps.LoneQuoteCloses | scintilla/lexers/LexVim.cxx:180 | a lone `'` closes the string including itself |
| VimLexerProps.LineStartEndsSpan | scintilla/lexers/LexVim.cxx:151-152 | strings and comments end at the start of a line |
| VimLexerProps.QuoteOpensCommentOrString | scintilla/lexers/LexVim.cxx:218-223 | `"` at the logical start of a legacy command opens a comment (marking a line that had nothing visible), otherwise a string |
| VimLexerProps.HashOpensComment | scintilla/lexers/LexVim.cxx:224-228 | `#` after a blank opens a comment, otherwise an operator, and it marks the line when first |
| VimLexerProps.PipeStartsCommand | scintilla/lexers/LexVim.cxx:253-272 | a single `\|` outside autocmd restarts the logical count at 0 while the line count goes on |
| VimLexerProps.NamespacePrefix | scintilla/lexers/LexVim.cxx:243-246 | `x:` styles the letter as a variable and the colon as an operator |
| VimLexerProps.KeywordAtCommandStart | scintilla/lexers/LexVim.cxx:116-123 | a keyword at the command start is a keyword. `au`/`autocmd` set autocmd mode and `export` arms `def` |
| VimLexerProps.KeywordElsewhere | scintilla/lexers/LexVim.cxx:124-130 | elsewhere a keyword is demoted unless it is `def` after `export` |
| VimLexerProps.CommandWord | scintilla/lexers/LexVim.cxx:131-142 | a command name. At the line start `vim9script` sets Vim9 mode, and `syn`/`syntax` prefers a regex iff `m` or `r` follows |
| VimLexerProps.OtherWord | scintilla/lexers/LexVim.cxx:143-146 | any other word is a function iff `(` follows on the line |
| VimLexerProps.KeywordEndGrows | scintilla/lexers/LexVim.cxx:116-130 | keywords only set flags and write no line state |
| VimLexerProps.CommandEndGrows | scintilla/lexers/LexVim.cxx:131-142 | commands only set flags and write no line state |
| VimLexerProps.WordEndGrows | scintilla/lexers/LexVim.cxx:110-148 | a finished word only sets flags |
| VimLexerProps.BodyKeepsFlags | scintilla/lexers/LexVim.cxx:99-260 | the state's case and the dispatch only set flags and write no line state |
| VimLexerProps.FirstVisibleFlags | scintilla/lexers/LexVim.cxx:262-269 | the first visible character (not `:`) sets the continuation flag if it is `\`, and ends autocmd otherwise |
| VimLexerProps.LaterVisibleFlags | scintilla/lexers/LexVim.cxx:262-272 | later characters leave the flags alone |
| VimLexerProps.LineEndStoresFlags | scintilla/lexers/LexVim.cxx:274-280 | the line's flags are stored, only autocmd and Vim9 carry over, and a restart reads exactly those back |
| VimLexerProps.WithinLineKeepsFlags | scintilla/lexers/LexVim.cxx:99-281 | away from a line end nothing is stored, and the comment, continuation and Vim9 flags stay set |
| VimLexerProps.TailWithinLine | scintilla/lexers/LexVim.cxx:262-281 | the tail away from a line end stores nothing |
| VimLexerProps.RestartResumesFlags | scintilla/lexers/LexVim.cxx:88-90 | a range starting on the next line resumes with the carried flags |
| VimLexerProps.LineEndFoldBits | scintilla/lexers/LexVim.cxx:274-294 | the folder reads each line's comment and continuation flags |
| VimLexerProps.ShebangIsComment | scintilla/lexers/LexVim.cxx:91-96 | `#!` at the start of the document is a comment line that marks it |
| VimLexerProps.StylesKept | scintilla/lexers/LexVim.cxx:98-284 | whatever some iterations style is part of the final styles |
| VimFold.FoldInit | scintilla/lexers/LexVim.cxx:297-315 | the start state is on the start line with the stored levels and an empty word |
| VimFold.FoldStep | scintilla/lexers/LexVim.cxx:316-357 | one iteration keeps the invariant and moves one character |
| VimFold.ReadChar | scintilla/lexers/LexVim.cxx:317-333 | the buffer holds the (truncated) word and the iteration's character part is CountChar |
| VimFold.EndOfLine | scintilla/lexers/LexVim.cxx:335-357 | the imperative line end computes LineEnd |
| VimFold.FoldVimDoc | scintilla/lexers/LexVim.cxx:296-359 | the loop leaves exactly the levels and the write log FoldRun computes |
| VimFold.CountCharCases | scintilla/lexers/LexVim.cxx:317-333 | outside a word nothing but the position moves. Inside a word the character is kept, and at its end the level moves by FoldWordDelta and the word is cleared |
| VimFold.FoldWordTable | scintilla/lexers/LexVim.cxx:327-331 | +1 iff `if`, `while`, `for`, `try`, `def` or `fun...`. -1 iff `end...`. 0 otherwise |
| VimFold.TruncationKeepsDelta | scintilla/lexers/LexVim.cxx:311-331 | keeping only the first seven characters never changes the word's effect |
| VimFold.KeepCharPrefix | scintilla/lexers/LexVim.cxx:321-323 | the buffer holds the word's first seven characters |
| VimFold.WordRunFrom | scintilla/lexers/LexVim.cxx:316-333 | a run of word characters moves the level by the effect of its truncated text |
| VimFold.WordRunLevel | scintilla/lexers/LexVim.cxx:316-333 | a whole word within a line moves the level by FoldWordDelta of its text, and stores nothing |
| VimFold.LineEndStores | scintilla/lexers/LexVim.cxx:335-357 | the packed level is stored for the line, other lines keep theirs, and a write is logged iff the word differs from the stored one |
| VimFold.HeaderIffRises | scintilla/lexers/LexVim.cxx:342-346 | a line is a header iff its level rises, and the stored word gives back both levels |
| VimFold.RestartReadsStoredLevel | scintilla/lexers/LexVim.cxx:298-307 | a later start resumes from the next level stored for the line before, and the previous line's bits |
| VimFold.CommentRunShift | scintilla/lexers/LexVim.cxx:336-340 | over a run of comment lines the shifts telescope to the bits at its two ends |
| VimFold.CodeRunShift | scintilla/lexers/LexVim.cxx:340 | over non-comment lines the shifts telescope to the continuation bits at the ends |
| VimFold.CommentBlockFolds | scintilla/lexers/LexVim.cxx:336-340 | a block of two or more comment lines opens one fold on its first line and nets zero. A single comment line opens none |
| VimFold.ContinuationBlockFolds | scintilla/lexers/LexVim.cxx:340 | continuation lines fold under the line they continue: +1 before the first, -1 at the last, net zero |
| VimFold.StepStores | scintilla/lexers/LexVim.cxx:316-357 | an iteration changes only the current line's level |
| VimFold.RunKeepsEarlierLines | scintilla/lexers/LexVim.cxx:316-358 | lines before the start line keep their levels |
| VimFold.StepTwins | scintilla/lexers/LexVim.cxx:347-349 | two scans that differ only in stored levels and log step alike |
| VimFold.RerunKeeps | scintilla/lexers/LexVim.cxx:347-349 | re-running over levels the run already stored writes nothing |
| VimFold.RerunWritesNothing | scintilla/lexers/LexVim.cxx:296-359 | folding the same range twice: the second pass finds every level up to date, calls SetLevel for no line, and leaves the levels unchanged |

## Left out

- `src/EditLexers/stlCMake.c` is not part of this model. It is keyword-list configuration data, not lexing logic.
- The lexer registrations (`LexerModule lmJava`, `lmVim`) are framework glue and are left out.
- Lines end with `\n` only. A lone `\r` as a line end, and CRLF handling inside the cursor, are not modelled.
- The lexer library's character helpers (`IsDecimalNumberEx`, `IsIdentifierCharEx`, `IsNumberStart`, `IsInvalidUrlChar`, `IsCommentTagPrev`, ...) live outside the two files. They are simple ASCII stand-ins, and nothing is proved about them.
- `HighlightTaskMarker` lives outside the two files. It is taken to find no marker, so task markers are never styled.
- `LookbackNonWhite` (LexJava.cxx:224) lives outside the two files. Its result is a parameter of the scan.
- `PackLineState`/`UnpackLineState` live outside the two files. They are a stand-in codec: a 3-bit count and 4-bit entries, keeping the innermost three entries.
- `CheckBraceOnNextLine` lives outside the two files. `JavaFold.BraceOnNextLine` is a stand-in: the next line's first non-blank is a `{` styled as an operator.
- JavaLexer.ClassifyWord: `GetCurrent` copies at most 127 characters into its buffer. The model compares the whole word, so a keyword list entry longer than 127 characters would match differently.
- JavaLexer.Step: the `(type)` cast and declaration heuristics (LexJava.cxx:312-346) are modelled as written, through `IdentifierRole`. `GetDocNextChar` is a stand-in for the library's next-visible-character lookup.
- FoldLevel.PackLevelDecode: holds only for current levels in [0, 0x2000). The packing is not checked against 32-bit overflow of `levelNext << 16`.
- VimFold.ReadChar: a NUL character inside a word ends the C string early. The model compares the kept characters as a sequence.
- The colourisers' styles are a list of per-position styles. The accessor's style buffer and its flushing are not modelled.
- Both folders take the colouriser's styles and line states as inputs. The levels already stored are an input map.
