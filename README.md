# Javpy, modelled in Dafny

Javpy is a toy language run by a three-stage Python pipeline:
source text → tokens → tree → effects. The repository has two generations of it.

- `javpy_core.py` (class `JavpyCore`) is the current one. It has:
  - a lexer over an ordered table of patterns, with comment markers `<$> … <$!>` and errors for misused markers;
  - a recursive-descent parser for `print e`, `const name : e` and `name : e`, where expressions use `+ - * / // % **`, parentheses and `True`/`False`;
  - a tree-walking evaluator;
  - an interpreter over two class-level stores, `variables` and `constants`. A name in `constants` can never be declared again.
- `javpy.py` (class `javpy`) is an earlier one. It has the same lexer loop with a shorter table and no comment errors, a parser for a single `print` statement, and an interpreter that prints its value.

The Dafny project has one module per stage. `Lexing` holds the pattern matchers both lexers share. `CoreLexer`, `CoreParser`, `CoreEval` and `CoreInterp` model the stages of `javpy_core.py`. `CoreGrammar` proves its grammar's properties. `Legacy` models `javpy.py`.

How each stage is written:
- **Lexers.** Every regular expression of a token table is a hand-written matcher that returns the length it matches at the front of the text. Both `tokenize` loops are methods with `while` loops. Each is proved to compute a specification function (`Lex`), one step of which is `Step`. The properties are proved about those functions.
- **Parser.** The shared token list, which `parse` consumes with `pop(0)`, is the `tokens` field of a `Parser` object. Each nested `parse_*` function is a method. Each method's loop rebuilds `left` and is proved against a pure function of the tokens it started with. Precedence and associativity are proved as a round trip: a printer writes any well-formed tree (operators among the seven, no identifier spelled `True` or `False`) back as tokens, parenthesised only where needed, and the parser reads that exact tree back.
- **Evaluator.** `evaluate` is a recursive function. It reads the `variables` map, which is passed in as a parameter.
- **Interpreter.** `interpret` is a method of an `Interpreter` object. The object's fields `variables`, `constants` and `output` are what the source keeps at class level. The method is proved to compute the function `Interpretation`. It is also proved to keep constants bound to the values they had.

The model follows the code where the code's behaviour is surprising:
- **Every character matches a pattern.** The last pattern, `MISMATCH`, matches any character but a newline, and `NEWLINE` matches the newline. So the "unknown symbol" branch can never fire. A stray character becomes a `MISMATCH` token.
- **The up-front comment-end check looks at the raw text.** A `<$!>` inside a `<<string>>` in a text with no `<$>` is still rejected before lexing.
- **Line counting.** `line_num` grows only when the lexeme taken is a lone newline. A newline inside a string literal is not counted.
- **Operators are recognised by token value, not kind.** A `)` or `+` is recognised by its text, whatever its token kind.
- **The declaration branches pop without checking what is left.** Running out of tokens there is the error `PopFromEmpty`. After `const`, any token is taken as the name.
- **Unknown tokens are skipped.** A token that starts no statement is skipped at the top level, not reported as an error.

## Model

| member | source | states |
|---|---|---|
| Lexing.MatchLiteral | javpy_core.py:4-8 | `<$>`, `<$!>` and `:` match exactly when the literal is a prefix of the text, and then match its length |
| Lexing.MatchKeyword | javpy_core.py:6-7 | `print\b` and `const\b` match exactly when the keyword is a prefix not followed by a word character, and then match the keyword |
| Lexing.MatchDecimal | javpy_core.py:9 | `\d+(\.\d+)?` matches exactly when the text starts with a digit. It takes the whole digit run, then a dot and a digit run whenever one follows. The match is maximal and has at most one dot, right after the integral part |
| Lexing.MatchString | javpy_core.py:10 | a match starts with `<<`, ends with `>>` and contains no `>` between them |
| Lexing.StringLiteralMatched | javpy_core.py:10 | conversely, a `<<`, a run without `>`, then `>>` is matched, with exactly that length |
| Lexing.MatchOperator | javpy_core.py:11 | matches one of `+-*/%()` at the front; it takes two characters exactly for `**` and `//` |
| Lexing.MatchIdent | javpy_core.py:12 | matches exactly when the text starts with a letter or `_`; the match is a maximal run of word characters |
| Lexing.MatchNewline | javpy_core.py:13 | matches exactly one character, a newline |
| Lexing.MatchBlanks | javpy_core.py:14 | matches exactly when the text starts with a space or tab; the match is a maximal run of them |
| Lexing.MatchAny | javpy_core.py:15 | `.` matches one character exactly when it is not a newline |
| Lexing.MatchDigits | javpy.py:7 | `\d+` matches exactly when the text starts with a digit; the match is a maximal digit run |
| Lexing.Find | javpy_core.py:51 | `str.find`: the index returned is an occurrence with none before it, and None means there is no occurrence |
| Lexing.CountNewlines | javpy_core.py:51 | the count is at most the length, and zero exactly when the text has no newline |
| Lexing.StripDelimiters | javpy_core.py:76 | `lexeme[2:-2]`: the lexeme is its first two characters, the result, then its last two; the result is empty below four characters |
| CoreLexer.FirstOf | javpy_core.py:57-59 | a match found is a kind of the table, with a length between 1 and the remaining text |
| CoreLexer.FirstOfLength | javpy_core.py:58-61 | the length taken is the one that kind's pattern matches |
| CoreLexer.FirstOfIsFirst | javpy_core.py:57-59 | ordered alternation: the kind taken matches, and no earlier entry of the table does. Nothing is taken exactly when no entry matches |
| CoreLexer.FirstOfSkip | javpy_core.py:57-59 | table entries that do not match can be passed over |
| CoreLexer.FirstMatchTotal | javpy_core.py:13-15 | some pattern of the table matches at every position of a non-empty text |
| CoreLexer.KeywordsWin | javpy_core.py:6-12 | `print`/`const` followed by a word boundary lexes as the keyword, with five characters |
| CoreLexer.IdentIsNeverKeyword | javpy_core.py:6-12 | a lexeme taken as IDENT is never `print` or `const` |
| CoreLexer.CommentMarkersWin | javpy_core.py:4-5 | `<$>` lexes as COMMENT_START and `<$!>` as COMMENT_END wherever they occur |
| CoreLexer.NewlineWins | javpy_core.py:13 | a newline is taken as NEWLINE, one character long |
| CoreLexer.StringLiteralsWin | javpy_core.py:4-10 | a `<<…>>` literal with no `>` inside lexes as one STRING of its full length, since no earlier pattern matches a text starting with `<<` |
| CoreLexer.Emit | javpy_core.py:74-80 | a token has its lexeme's kind. A STRING's payload is the lexeme without its first and last two characters. A NUMBER is converted exactly when its lexeme contains a dot. Every other token keeps its text |
| CoreLexer.Advance | javpy_core.py:63-84 | any lexeme that does not raise moves `pos` forward by its length |
| CoreLexer.Step | javpy_core.py:55-91 | every iteration that does not raise moves `pos` strictly forward, within the text, so `tokenize` terminates |
| CoreLexer.StepMatched | javpy_core.py:57-85 | where pattern k matched n characters, the iteration is the effect of that lexeme |
| CoreLexer.MatchAt | javpy_core.py:57-59 | the `for` loop over the table returns what ordered alternation gives |
| CoreLexer.Consume | javpy_core.py:60-85 | the body run on a match computes the effect of the lexeme |
| CoreLexer.LexOne | javpy_core.py:56-91 | one iteration of the `while` loop computes `Step` |
| CoreLexer.Tokenize | javpy_core.py:41-96 | `tokenize` returns or raises exactly what `Lex` gives |
| CoreLexer.NeverUnknownSymbol | javpy_core.py:87-90 | the unknown-symbol error is raised for no input |
| CoreLexer.TokensAreNeverSilent | javpy_core.py:74 | no emitted token is a comment marker, a blank run or a newline |
| CoreLexer.CommentStepEmitsNothing | javpy_core.py:74 | an iteration taken inside a comment emits nothing |
| CoreLexer.CommentMarkerStep | javpy_core.py:63-73 | `<$>` inside a comment is the nested-comment error at the current line, and `<$!>` outside one is the unexpected-end error. Otherwise `<$>` opens a comment and records its line, `<$!>` closes it, and neither of them emits a token |
| CoreLexer.LoneCommentEndRejected | javpy_core.py:50-53 | a text with a `<$!>` and no `<$>` is rejected before the loop, with the line of the first `<$!>`; any other text goes to the loop |
| CoreLexer.LineAdvance | javpy_core.py:82-84 | the line counter goes up by one exactly when the lexeme taken starts with a newline |
| CoreLexer.UnclosedCommentReported | javpy_core.py:93-95 | a comment open with no `<$!>` after it ends in the unclosed-comment error at the comment's first line, unless a nested `<$>` is reported first |
| CoreLexer.NotCommentEnd | javpy_core.py:57-69 | where no `<$!>` occurs, the pattern that wins is not COMMENT_END |
| CoreParser.Expression | javpy_core.py:107-108 | a parsed expression consumes at least one token |
| CoreParser.Addition | javpy_core.py:110-116 | a parsed addition consumes at least one token |
| CoreParser.AdditionTail | javpy_core.py:112-115 | the `while` loop of `parse_addition` never gives tokens back |
| CoreParser.Multiplication | javpy_core.py:118-124 | a parsed multiplication consumes at least one token |
| CoreParser.MultiplicationTail | javpy_core.py:120-123 | the `while` loop of `parse_multiplication` never gives tokens back |
| CoreParser.Power | javpy_core.py:126-132 | a parsed power consumes at least one token |
| CoreParser.PowerTail | javpy_core.py:128-131 | the `while` loop of `parse_power` never gives tokens back |
| CoreParser.Primary | javpy_core.py:134-161 | a parsed primary consumes at least one token |
| CoreParser.Statements | javpy_core.py:163-188 | statements are only appended to those found before, at most one per token |
| CoreParser.Program | javpy_core.py:98-100 | `parse` returns None exactly for the empty token list, and otherwise at most one statement per token |
| CoreParser.Parser.Pop | javpy_core.py:142 | `tokens.pop(0)` returns the head and leaves the tail |
| CoreParser.Parser.ParseExpression | javpy_core.py:107-108 | the result and the tokens left are those of `Expression` |
| CoreParser.Parser.ParseAddition | javpy_core.py:110-116 | the result and the tokens left are those of `Addition` |
| CoreParser.Parser.ParseMultiplication | javpy_core.py:118-124 | the result and the tokens left are those of `Multiplication` |
| CoreParser.Parser.ParsePower | javpy_core.py:126-132 | the result and the tokens left are those of `Power` |
| CoreParser.Parser.ParsePrimary | javpy_core.py:134-161 | the result and the tokens left are those of `Primary` |
| CoreParser.Parser.Parse | javpy_core.py:98-188 | the outcome is `Program` of the initial tokens, and a successful parse consumes every token |
| CoreGrammar.Prec | javpy_core.py:110-132 | the three operator levels and the atoms are precedences 1 to 4, and only operations have a level below 4 |
| CoreGrammar.PrimaryRoundTrip | javpy_core.py:134-159 | `parse_primary` reads back any well-formed tree printed at full strength, parenthesised if it is an operation |
| CoreGrammar.PowerRoundTrip | javpy_core.py:126-132 | `parse_power` reads back any tree printed at `**` strength, when no `**` follows |
| CoreGrammar.PowerOperand | javpy_core.py:126-132 | the same for a tree whose top operator is `**`: the right operand is parsed by a recursive `parse_power` |
| CoreGrammar.PowerStep | javpy_core.py:128-131 | `l ** r` with a complete power `r` after the operator parses as `Operation("**", l, r)` |
| CoreGrammar.MultiplicationRoundTrip | javpy_core.py:118-124 | `parse_multiplication` on a tree printed at multiplicative strength continues, with that tree as `left`, exactly as its own loop would |
| CoreGrammar.MultiplicationStep | javpy_core.py:120-123 | one iteration of the multiplicative loop folds the operator onto `left` |
| CoreGrammar.AdditionStep | javpy_core.py:112-115 | one iteration of the additive loop folds the operator onto `left` |
| CoreGrammar.AdditionRoundTrip | javpy_core.py:110-116 | `parse_addition` on a printed tree continues, with that tree as `left`, exactly as its own loop would |
| CoreGrammar.ExpressionRoundTrip | javpy_core.py:107-132 | PRECEDENCE: every well-formed tree (operators among the seven, no identifier spelled `True` or `False`), printed with the fewest parentheses, parses back to itself, leaving the rest of the tokens |
| CoreGrammar.AdditiveOperatorsGroupLeft | javpy_core.py:110-116 | `a op1 b op2 c` with additive operators is `(a op1 b) op2 c` |
| CoreGrammar.MultiplicativeOperatorsGroupLeft | javpy_core.py:118-124 | `a op1 b op2 c` with multiplicative operators is `(a op1 b) op2 c` |
| CoreGrammar.PowerGroupsRight | javpy_core.py:126-132 | `a ** b ** c` is `a ** (b ** c)` |
| CoreGrammar.MultiplicationBindsTighter | javpy_core.py:110-124 | `a + b * c` is `a + (b * c)` |
| CoreGrammar.MultiplicationBindsTighterOnTheLeft | javpy_core.py:110-124 | `a * b + c` is `(a * b) + c` |
| CoreGrammar.PrimaryErrorPropagates | javpy_core.py:107-136 | an error of `parse_primary` at the front is the error of the whole expression |
| CoreGrammar.MissingOperandReported | javpy_core.py:135-136 | an empty expression, and an operator with nothing after it, are the unexpected-end error |
| CoreGrammar.UnclosedParenthesis | javpy_core.py:153-157 | `(` and an expression not followed by `)` is the missing-parenthesis error |
| CoreGrammar.UnexpectedTokenReported | javpy_core.py:161 | a token that cannot begin a primary is the unexpected-token error naming its kind |
| CoreGrammar.ProgramTokensStart | javpy_core.py:165-184 | the tokens of a statement never begin with an operator |
| CoreGrammar.StatementRoundTrip | javpy_core.py:165-184 | the tokens of one well-formed statement parse to that statement, and the loop goes on after them. Well-formed: its expression is a well-formed tree, and a declared name is not spelled like one of the seven operators |
| CoreGrammar.PrintStep | javpy_core.py:166-169 | `print e` appends a Print statement of `e` |
| CoreGrammar.DeclarationStep | javpy_core.py:171-184 | `[const] name : e` appends a declaration of `name` to `e`, constant exactly when it began with `const` |
| CoreGrammar.ProgramStep | javpy_core.py:165-184 | one turn of the statement loop over a program's tokens reads its first well-formed statement and goes on with the tokens of the rest |
| CoreGrammar.ProgramRoundTrip | javpy_core.py:163-188 | the tokens of any sequence of well-formed statements (as for StatementRoundTrip) parse to exactly those statements, in order |
| CoreGrammar.ParseProgram | javpy_core.py:98-188 | `parse` of the tokens of a non-empty program of well-formed statements returns that program |
| CoreGrammar.StrayTokensSkipped | javpy_core.py:185-186 | tokens that start no statement are skipped without effect |
| CoreGrammar.TruncatedDeclarations | javpy_core.py:171-184 | a declaration cut short before its colon is the empty-pop error, and a non-colon after the name is the expected-colon error |
| CoreEval.AsNumber | javpy_core.py:205-211 | a number is itself, `True` is 1 and `False` is 0, and a string has no number (the error case) |
| CoreEval.Arith | javpy_core.py:205-211 | arithmetic on numbers gives a number, a zero-division error or an unsupported-result error |
| CoreEval.Apply | javpy_core.py:202-212 | an operator outside the seven gives back its own text. `+` on two strings concatenates them. Non-string operands go to arithmetic |
| CoreEval.Evaluate | javpy_core.py:190-212 | a name error names an identifier of the tree that is not bound, and a tree whose identifiers are all bound raises no name error |
| CoreEval.LeavesEvaluate | javpy_core.py:194-201 | a literal gives what the parser stored in it; a name gives its binding, or a name error exactly when it is unbound |
| CoreEval.OperandsInOrder | javpy_core.py:202-211 | the left operand is evaluated first and its error wins, then the right one's; the operator is applied only to two values |
| CoreEval.EvaluateReadsOnlyNames | javpy_core.py:198-203 | evaluation depends on the bindings of the tree's own identifiers only |
| CoreEval.FloorDivisionLaw | javpy_core.py:209-210 | `//` is a whole number and `%` takes the divisor's sign, with `a == b * (a // b) + a % b` |
| CoreEval.PositiveDivisorBounds | javpy_core.py:209 | for a positive divisor, `b * (a // b)` is the largest multiple of `b` not above `a` |
| CoreEval.ZeroDivisionExactly | javpy_core.py:208-211 | zero-division errors arise exactly for `/`, `//`, `%` by zero, and for zero raised to any negative power, whole or fractional (`0 ** (0 - 0.5)` raises too) |
| CoreEval.ZeroToNegativeFractionRaises | javpy_core.py:211 | `0 ** (0 - 0.5)` evaluates to the zero-division error, not the unsupported-result error |
| CoreInterp.Exec | javpy_core.py:218-234 | a statement only adds constants and output. It keeps every constant bound to the value it had, and keeps constants bound |
| CoreInterp.RedeclaredConstantRejected | javpy_core.py:227-229 | declaring a constant again raises before its expression is evaluated and changes nothing |
| CoreInterp.DeclarationEffect | javpy_core.py:230-234 | any other declaration binds the name to its value. The name becomes constant exactly when declared `const` or already constant. Nothing else changes |
| CoreInterp.PrintEffect | javpy_core.py:219-224 | a print appends its value and changes nothing else; an error stops it |
| CoreInterp.RunMonotone | javpy_core.py:218-234 | across any statements, constants and output only grow and constants stay bound |
| CoreInterp.ConstantsKeepTheirValues | javpy_core.py:225-234 | a constant's binding never changes, however many statements run |
| CoreInterp.RunSequence | javpy_core.py:218 | running `a + b` is running `a`, then `b` from where `a` left off, unless `a` raised |
| CoreInterp.Interpreter.constructor | javpy_core.py:20-21 | the stores start empty |
| CoreInterp.Interpreter.Execute | javpy_core.py:219-234 | one statement updates the stores exactly as `Exec`; on an error they are unchanged |
| CoreInterp.Interpreter.Interpret | javpy_core.py:214-234 | the stores and the error are those of `Interpretation`; constants only grow and keep their values |
| Legacy.FirstOf | javpy.py:29-31 | a match found is a kind of the table, with a length between 1 and the remaining text |
| Legacy.FirstOfIsFirst | javpy.py:29-31 | ordered alternation: the kind taken matches and no earlier entry does; nothing is taken exactly when no entry matches |
| Legacy.FirstMatchTotal | javpy.py:9-11 | some pattern matches at every position of a non-empty text |
| Legacy.PrintBeforeIdent | javpy.py:6-8 | `print` followed by a word boundary lexes as PRINT, not IDENT |
| Legacy.DigitsAreNumbers | javpy.py:7-8 | a digit run lexes as one NUMBER |
| Legacy.Advance | javpy.py:35-42 | `<$>` sets and `<$!>` clears the comment flag unconditionally. A token is appended exactly outside comments and for kinds other than markers, blanks and newlines, with its raw lexeme |
| Legacy.Step | javpy.py:27-48 | every iteration moves `pos` strictly forward within the text |
| Legacy.StepMatched | javpy.py:29-43 | where pattern k matched n characters, the iteration is the effect of that lexeme |
| Legacy.MatchAt | javpy.py:29-31 | the `for` loop over the table returns what ordered alternation gives |
| Legacy.Consume | javpy.py:33-42 | the body run on a match computes the effect of the lexeme |
| Legacy.LexOne | javpy.py:28-48 | one iteration of the `while` loop computes `Step` |
| Legacy.Tokenize | javpy.py:21-50 | `tokenize` returns or raises exactly what `Lex` gives |
| Legacy.LexNeverFails | javpy.py:45-48 | `tokenize` raises for no input |
| Legacy.LexemeShaped | javpy.py:39-40 | the text a pattern matched has that pattern's shape |
| Legacy.WinnerShaped | javpy.py:29-40 | the lexeme the winning pattern takes has that pattern's shape |
| Legacy.TokensShaped | javpy.py:39-40 | every emitted token is `print`, a digit run, an identifier or one stray non-newline character, never a marker, blank or newline |
| Legacy.CommentStep | javpy.py:35-39 | inside a comment nothing is emitted; `<$>` sets the flag and `<$!>` clears it |
| Legacy.ParseTokens | javpy.py:51-71 | a Print node is returned exactly when PRINT is followed by IDENT or NUMBER, and it holds that token's lexeme |
| Legacy.OnlyFirstStatement | javpy.py:68-71 | nothing after the first two tokens matters |
| Legacy.Parser.Match | javpy.py:55-59 | `match(t)` pops and returns the head exactly when it has kind `t`, and otherwise changes nothing |
| Legacy.Parser.ParsePrint | javpy.py:61-66 | `parse_print` returns what `ParseTokens` gives after a PRINT, or None, and consumes PRINT and the value it used |
| Legacy.Parser.Parse | javpy.py:51-71 | `parse` returns `ParseTokens` of its tokens and consumes only what `parse_print` used |
| Legacy.Interpreter.Interpret | javpy.py:73-77 | the value is output exactly when the node is a Print node; otherwise nothing changes |

## Left out

- `javpy_runner.py` is not part of this model. It is file reading, the `.jvp` extension check, `input()` and the printing of caught errors.
- Floating point. Numbers are exact rationals (`real`), and ints and floats are not told apart. So `False + True` is the number 1 here, while Python gives the int 1, and `"ab" * (True + True)` is a type error here, while Python repeats the string. The model has no rounding, no `inf`/`nan` and no `OverflowError`.
- CoreEval.Arith: `**` with a fractional exponent on a non-zero base gives the `Unsupported` error instead of Python's float or complex result. A zero base with a negative exponent raises the zero-division error, as in Python.
- CoreEval.Apply: `%` with a string on the left is printf-style formatting in Python; here it gives the `Unsupported` error.
- CoreEval.Apply: a string times a number is a type error, because every parsed number is a float. A string times a boolean repeats it once or not at all. An int produced from booleans cannot repeat a string, since ints are not modelled.
- The printed form of values (`print(int(result))` for whole floats, Python's `repr` of floats): `output` holds the printed values, not their text.
- Lexing.MatchKeyword, Lexing.MatchDecimal, Lexing.MatchDigits, Lexing.MatchIdent: `\d`, `\w` and the word boundary `\b` of `print\b`/`const\b` are ASCII only here. Python's `re` also accepts other Unicode digits and letters there, so `printé` is one IDENT in Python but PRINT followed by MISMATCH here.
- CoreGrammar.StatementRoundTrip, CoreGrammar.ProgramStep, CoreGrammar.ProgramRoundTrip, CoreGrammar.ParseProgram: the round trip excludes declarations whose name is spelled like an operator, such as `const + : 5`, which `parse` accepts. Printed after another statement, such a name would be read as part of the previous expression. Identifiers spelled `True` or `False` are excluded because `parse` reads them as literals.
- Lexing.DecimalValue: `float(lexeme)` is read as the exact decimal value, without rounding.
- Error messages and the `code_lines` quotation of the offending line. Errors are datatypes that carry the line, and for the unknown symbol also the character and column.
- `validate_type` (never called), `JAVPY_CORE_VER`, the `Node` classes (replaced by datatypes) and the `__main__` demo of `javpy.py`.
- The nested `match` helper of `JavpyCore.parse` (javpy_core.py:102-105), which nothing calls.
- `line_num` of `javpy.tokenize`, which is set and never used.
- Aliasing of the token list. Python's `parse` pops the caller's own list. Here the `Parser` object owns a copy, so the caller's list is not shown to empty.
- CoreParser.Parser.ParseExpression, CoreParser.Parser.ParseAddition, CoreParser.Parser.ParseMultiplication, CoreParser.Parser.ParsePower, CoreParser.Parser.ParsePrimary, CoreParser.Parser.Parse: after an error, what is left of the token list is not stated, because the source raises and abandons the list.
- `evaluate(None)` returning None: every tree here has a node wherever the parser puts one.
- Python exception classes: `SyntaxError`, `NameError`, `TypeError`, `ZeroDivisionError` and `ValueError` are cases of `LexError`, `ParseError` and `RuntimeError`. An `IndexError` from `pop(0)` on an empty list is `PopFromEmpty`.
- Printing itself. `print` is modelled as appending to `output`.
