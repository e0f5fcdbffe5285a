# demorgan, modelled in Dafny

demorgan reads boolean expressions over named variables (`a && !(b || c)`).
A table-driven lexer turns the bytes into tokens. A recursive-descent parser
turns the tokens into an expression tree. A simplifier then rewrites the tree
with three rules: double-negation elimination, De Morgan's laws pushed through
NOT, and `X op X -> X`.

This project models those four parts and proves properties of the model:

- `wrappers.dfy` (`Wrappers`): the `Option` type. A null `unique_ptr` is `None`.
- `tokens.dfy` (`Tokens`): positions, locations, the four token variants,
  `type()` and `match_operator_kind` (src/token.cpp).
- `expressions.dfy` (`Expressions`): the expression tree as a datatype, with
  clone, the copy constructors, the `==`/`!=` operators and the `make_*`
  constructors (src/expression.cpp). `Eval` gives a tree its boolean meaning.
  The source never evaluates trees; `Eval` is the reference the simplifier's
  rewrites are checked against.
- `simplifier.dfy` (`Simplifier`): `simplify` and its three per-kind overloads,
  modelled as written (src/simplifier.cpp). `SimplifyFixed` is the corrected
  rewriter described under Findings.
- `lexing.dfy` (`Lexing`): the 256×256 transition table, as a function and as
  the array that `create_table` fills. Also `step`, and `next_token` in two
  forms: a function of the lexer state (`LexNext`) and the class `Lexer`,
  whose `NextToken` method runs the source's loop and is proved equal to
  `LexNext` (src/lexer.cpp).
- `parsing.dfy` (`Parsing`): the grammar as functions of a token sequence and
  an index (`ExpressionAt` … `IdentifierAt`). The class `Parser` holds
  `current_token`; its `Parse*` methods are proved equal to those functions
  (src/parser.cpp).
- `pipeline.dfy` (`Pipeline`): the parser reading what the lexer produces.

The input stream is a byte sequence with a cursor. Once the bytes run out,
`read()` yields the sentinel END (255). A 0xFF byte in the input reads as the
same value, so the lexer treats it exactly like the end of the input. The model
keeps that behaviour rather than excluding such inputs.

The parser pulls tokens from a sequence. Reading past its end yields `End`,
because the lexer keeps returning `End` once it has. The parser never consumes
an `End` or `Error` token (`Parsing.ExpressionAt`). So the tokens up to the
lexer's first `End` or `Error` are all it ever sees
(`Pipeline.ParserStaysWithinLexedTokens`).

Where the code and its description disagree, the model follows the code:

- `!(a || (a && b))` simplifies to `AND(!a, OR(!a, !b))`.
- `simplify` is not idempotent; see Findings.
- A lexeme's first character is looked up in its own row of the table, and
  no cell accepts before a digit. So a digit can begin an identifier only at
  the start of the input, or right after an Error token whose rejected
  lexeme ended in a digit, because REJECT leaves the lookahead as it was:
  `a1@b` lexes as Error, then the identifier `1b`. The NUL row is reached
  only on a NUL byte.

## Model

| member | source | states |
|---|---|---|
| Tokens.TypeOf | src/token.cpp:23-71 | `type()` is ERROR, IDENTIFIER, OPERATOR or END exactly for the error, identifier, operator or end variant |
| Tokens.MatchOperatorKind | src/token.cpp:74-84 | the result is non-null exactly for an operator token of the given kind, and then it is that token itself |
| Expressions.TypeOf | src/expression.cpp:47-113 | `type()` is BINARY, UNARY or IDENTIFIER exactly for the binary, unary or identifier node |
| Expressions.Clone | src/expression.cpp:42-108 | a deep clone is structurally equal to the original |
| Expressions.CopyBinary | src/expression.cpp:19-25 | the binary copy constructor yields a node equal to its source |
| Expressions.CopyUnary | src/expression.cpp:60-65 | the unary copy constructor yields a node equal to its source |
| Expressions.CopyIdentifier | src/expression.cpp:94-98 | the identifier copy constructor yields a node equal to its source |
| Expressions.Equals | src/expression.cpp:116-144 | generic `==` holds exactly when the two trees are structurally identical; nodes of different kinds are never equal |
| Expressions.BinaryEquals | src/expression.cpp:151-154 | two binary nodes are equal iff their operators, left operands and right operands are pairwise equal (operand order matters) |
| Expressions.UnaryEquals | src/expression.cpp:161-164 | two NOT nodes are equal iff their inner expressions are equal |
| Expressions.IdentifierEquals | src/expression.cpp:171-174 | two identifiers are equal iff they are the same node, i.e. iff their names are equal |
| Expressions.NotEquals | src/expression.cpp:146-149 | generic `!=` holds exactly when the trees differ |
| Expressions.BinaryNotEquals | src/expression.cpp:156-159 | binary `!=` holds iff the operators or an operand differ |
| Expressions.UnaryNotEquals | src/expression.cpp:166-169 | unary `!=` holds iff the inner expressions differ |
| Expressions.IdentifierNotEquals | src/expression.cpp:176-179 | identifier `!=` holds iff the nodes, i.e. the names, differ |
| Expressions.DifferentKindsDiffer | src/expression.cpp:116-119 | nodes whose `type()` differs are unequal under `==` and unequal under `!=` |
| Expressions.MakeBinary | src/expression.cpp:182-188 | `make_binary` builds a BINARY node whose `op()`, `left()` and `right()` return the given arguments |
| Expressions.MakeUnary | src/expression.cpp:190-194 | `make_unary` builds a UNARY node whose `inner()` is the given expression |
| Expressions.MakeIdentifier | src/expression.cpp:196-199 | `make_identifier` builds an IDENTIFIER node whose `name()` is the given name |
| Simplifier.Simplify | src/simplifier.cpp:22-44 | the count of identifier and binary nodes never grows, and a NOT at the top of a result always wraps an identifier |
| Simplifier.SimplifyUnary | src/simplifier.cpp:46-97 | the unary rewrite keeps the count bound and puts NOT only over identifiers; it terminates under (that count, size) |
| Simplifier.SimplifyBinary | src/simplifier.cpp:99-112 | the binary rewrite keeps the count bound and the NOT-over-identifier shape |
| Simplifier.SimplifyIdentifier | src/simplifier.cpp:114-117 | an identifier simplifies to an identifier with the same name |
| Simplifier.SimplifyKeepsIdentifier | src/simplifier.cpp:114-117 | `simplify` of an identifier is that identifier |
| Simplifier.SimplifyCollapsesEqualOperands | src/simplifier.cpp:101-107 | when both operands simplify to the same tree, the operator is dropped and that tree is the result |
| Simplifier.SimplifyKeepsDistinctOperands | src/simplifier.cpp:108-111 | when the simplified operands differ, the result is the original binary node with its operands unsimplified |
| Simplifier.SimplifyEliminatesDoubleNegation | src/simplifier.cpp:52-63 | NOT over an operand that simplifies to NOT Y yields Y |
| Simplifier.SimplifyAppliesDeMorgan | src/simplifier.cpp:66-87 | NOT over an operand that simplifies to A op B yields the dual operator over the simplified NOT A and NOT B |
| Simplifier.SimplifyKeepsNegatedIdentifier | src/simplifier.cpp:90-93 | NOT over an operand that simplifies to an identifier yields NOT of that identifier |
| Simplifier.SimplifyPreservesMeaning | src/simplifier.cpp:7-17 | every rewrite is a boolean law: under any assignment the result has the value of the input |
| Simplifier.SimplifyExamples | src/simplifier.cpp:46-112 | the code maps `!!a` to `a`, `!(a && b)` to `OR(!a, !b)`, `a && a` and `a \|\| a` to `a`, and `!(a \|\| (a && b))` to `AND(!a, OR(!a, !b))` |
| Simplifier.SimplifyLeavesStaleOperands | src/simplifier.cpp:108-111 | `!!a && b` is returned unchanged, with the double negation still inside |
| Simplifier.SimplifyIsNotIdempotent | src/simplifier.cpp:99-112 | `!((a && b) \|\| (!!a && b))` simplifies to `AND(OR(!a, !b), OR(!a, !b))`, and simplifying that again gives `OR(!a, !b)` under the intended equality (the source's second pass throws std::bad_cast instead) |
| Simplifier.SimplifyFixed | src/simplifier.cpp:99-112 | the corrected rewriter, rebuilding a binary node from its simplified operands, never grows the count of identifier and binary nodes |
| Simplifier.SimplifyFixedKeepsNormal | src/simplifier.cpp:7-17 | a tree no rule applies to is left unchanged by the corrected rewriter |
| Simplifier.SimplifyFixedNegationInvolutive | src/simplifier.cpp:46-97 | negating a fully simplified tree twice through the corrected rewriter gives the tree back |
| Simplifier.SimplifyFixedIsNormal | src/simplifier.cpp:7-17 | the corrected rewriter simplifies "as much as possible": no rule applies to its result |
| Simplifier.SimplifyFixedIdempotent | src/simplifier.cpp:7-17 | the corrected rewriter is idempotent |
| Simplifier.SimplifyFixedPreservesMeaning | src/simplifier.cpp:7-17 | the corrected rewriter preserves the value under every assignment |
| Simplifier.SimplifyFixedSimplifiesOperands | src/simplifier.cpp:99-112 | on `!!a && b` the corrected rewriter yields `a && b` |
| Lexing.InitRoutinesDisjoint | src/lexer.cpp:30-163 | no two `init_*` routines write the same table cell, so their order does not matter |
| Lexing.Table | src/lexer.cpp:30-183 | an ACCEPT cell has an accept class and no other cell has one; no `[x][END]` cell continues; after whitespace only identifier starts, operator characters and END are accepted; among operator rows only `&&` and `\|\|` continue; `!`, `(`, `)` never continue; only identifier rows accept identifiers |
| Lexing.CharacterStrings | src/lexer.cpp:25-28 | ALPHANUM_START, ALPHANUM_REST and WHITESPACE hold exactly the letters and `_`, those plus digits, and space, tab, vertical tab, CR and LF |
| Lexing.FillCells | src/lexer.cpp:35-40 | a nested loop sets exactly the cells of the given rows and columns and leaves every other cell as it was |
| Lexing.InitAlphanumCells | src/lexer.cpp:30-53 | `init_alphanum` writes exactly the identifier cells and leaves every other cell as it was |
| Lexing.InitSymbolCells | src/lexer.cpp:56-144 | each of `init_lparen`, `init_rparen`, `init_amper`, `init_bar`, `init_exclam` writes exactly its symbol's cells and leaves the rest |
| Lexing.InitWhitespaceCells | src/lexer.cpp:146-163 | `init_whitespace` writes exactly the whitespace cells and leaves the rest |
| Lexing.CreateTable | src/lexer.cpp:165-181 | the array `create_table` fills equals `Table` in every one of the 256×256 cells |
| Lexing.Step | src/lexer.cpp:185-195 | a newline moves to (line+1, 1), any other character to (line, column+1); the position always moves forward |
| Lexing.AsString | src/lexer.cpp:209-210 | the lexeme text has one char per byte, with the same code |
| Lexing.OperatorToken | src/lexer.cpp:247-275 | an OPERATOR lexeme becomes an operator token exactly for `!`, `(`, `)`, `&&`, `\|\|` (with that spelling), otherwise an Error token, at the given location |
| Lexing.ReadByte | src/lexer.cpp:294-300 | `read()` yields the next byte and advances the cursor, or END with the cursor unchanged once the input is exhausted |
| Lexing.Start | src/lexer.cpp:198-203 | the constructor starts at position (1, 1) with the first byte (or END) as lookahead |
| Lexing.LexNext | src/lexer.cpp:205-292 | `next_token` never moves back, consumes input for every identifier or operator token, returns End only once the lookahead is END, and every token has start == end |
| Lexing.Scan | src/lexer.cpp:211-291 | the scanning loop keeps the same guarantees from any pending lexeme |
| Lexing.LexAll | src/lexer.cpp:205-292 | successive `next_token` calls give identifiers and operators and end with the first End or Error token |
| Lexing.EndIsReturnedAtEnd | src/lexer.cpp:214-218 | once the lookahead is END, `next_token` returns End at (current_pos, current_pos) and changes no state |
| Lexing.EndIsSticky | src/lexer.cpp:214-218 | after an End token, every later call returns the same End token |
| Lexing.RejectConsumesOnlyOffendingChar | src/lexer.cpp:222-234 | on REJECT an Error token at (current_pos, current_pos) is returned, prev_char and current_pos unchanged, and only the offending byte consumed |
| Lexing.AlnumLexemeTail | src/lexer.cpp:35-40 | in a chain of CONTINUE cells that ends in a letter, digit or `_`, every character after the first is one too |
| Lexing.ScanIdentifierShape | src/lexer.cpp:276-279 | an identifier token's name is non-empty, its first byte is a letter, digit, `_` or NUL, and the rest are letters, digits or `_` |
| Lexing.LexNextIdentifierShape | src/lexer.cpp:205-292 | the same shape holds of every identifier `next_token` returns |
| Lexing.LexExample | src/lexer.cpp:205-292 | `a && !b` lexes to identifier `a` at 1:1, `&&` at 1:3, `!` at 1:5, identifier `b` at 1:6 and End at 1:7 |
| Lexing.LoneAmperIsError | src/lexer.cpp:269-274 | a lone `&` is accepted as an OPERATOR lexeme but yields an Error token |
| Lexing.DoubleWhitespaceIsError | src/lexer.cpp:146-163 | two consecutive whitespace characters are rejected |
| Lexing.NoAcceptBeforeDigit | src/lexer.cpp:30-163 | no cell accepts a lexeme when the next character is a digit |
| Lexing.DigitStartsIdentifierAfterError | src/lexer.cpp:222-234 | REJECT leaves the lookahead as it was: `a1@b` yields Error, and the next call the identifier `1b` |
| Lexing.LeadingDigitStartsIdentifier | src/lexer.cpp:30-41 | `1a` at the start of the input lexes as the identifier `1a` |
| Lexing.Lexer.constructor | src/lexer.cpp:198-203 | the lexer object starts in the state `Start` describes |
| Lexing.Lexer.Read | src/lexer.cpp:294-300 | `read()` changes only the cursor, as `ReadByte` says |
| Lexing.Lexer.NextToken | src/lexer.cpp:205-292 | the loop returns the token `LexNext` gives and leaves the lexer in the state it gives |
| Parsing.ExpressionAt | src/parser.cpp:10-13 | `parse_expression` never goes back, never consumes an End or Error token, and consumes at least one token when it succeeds |
| Parsing.AddAt | src/parser.cpp:15-30 | `parse_add_expression` keeps the same guarantees |
| Parsing.MulAt | src/parser.cpp:32-47 | `parse_mul_expression` keeps the same guarantees |
| Parsing.UnaryAt | src/parser.cpp:49-74 | `parse_unary_expression` keeps the same guarantees |
| Parsing.PrimaryAt | src/parser.cpp:76-101 | `parse_primary_expression` keeps the same guarantees |
| Parsing.IdentifierAt | src/parser.cpp:103-117 | an identifier token becomes an identifier node with its name and is consumed; any other token yields null and nothing is consumed |
| Parsing.Parser.constructor | src/parser.cpp:3-8 | the constructor fetches exactly one token, so a current token exists |
| Parsing.Parser.Next | src/parser.cpp:119-122 | `next()` replaces the current token by the next one |
| Parsing.Parser.ParseExpression | src/parser.cpp:10-13 | returns what `ExpressionAt` gives and leaves the current token where it says |
| Parsing.Parser.ParseAdd | src/parser.cpp:15-30 | returns what `AddAt` gives and leaves the current token where it says |
| Parsing.Parser.ParseMul | src/parser.cpp:32-47 | returns what `MulAt` gives and leaves the current token where it says |
| Parsing.Parser.ParseUnary | src/parser.cpp:49-74 | returns what `UnaryAt` gives and leaves the current token where it says |
| Parsing.Parser.ParsePrimary | src/parser.cpp:76-101 | returns what `PrimaryAt` gives and leaves the current token where it says |
| Parsing.Parser.ParseIdentifier | src/parser.cpp:103-117 | returns what `IdentifierAt` gives and leaves the current token where it says |
| Parsing.Parse | src/parser.cpp:10-13 | a successful parse starts at an identifier or operator token |
| Parsing.NoOperandAtBadToken | src/parser.cpp:69-99 | an Error, End, `)`, `&&` or `\|\|` token where an operand must start yields null at every level, and the token is not consumed |
| Parsing.OperandAloneIsExpression | src/parser.cpp:21-39 | an operand followed by a token other than `&&` and `\|\|` is the whole expression, and that token is not consumed |
| Parsing.MissingRightOperandFails | src/parser.cpp:25-27 | a `\|\|` whose right operand fails makes the whole parse fail |
| Parsing.MissingRightConjunctFails | src/parser.cpp:42-44 | a `&&` whose right operand fails makes the whole conjunction fail |
| Parsing.ParenthesesAddNoNode | src/parser.cpp:84-95 | `( e )` succeeds exactly when `e` parses and is followed by `)`, and then it yields `e` itself with no wrapper |
| Parsing.ParseOrGroupsRight | src/parser.cpp:15-30 | `a \|\| b \|\| c` parses as `OR(a, OR(b, c))` |
| Parsing.ParseAndBindsTighter | src/parser.cpp:15-47 | `a && b \|\| c` parses as `OR(AND(a, b), c)` and `a \|\| b && c` as `OR(a, AND(b, c))` |
| Parsing.ParseNegationAndParentheses | src/parser.cpp:49-101 | `!!a` parses as `NOT(NOT(a))` and `(a \|\| b) && c` as `AND(OR(a, b), c)` |
| Parsing.ParseRejects | src/parser.cpp:76-101 | a missing `)`, an empty `()`, a missing right operand of `&&`, a `!` with no operand, and no tokens at all each yield null |
| Parsing.TrailingTokensAreIgnored | src/parser.cpp:21-22 | a parse stops at the first token the grammar cannot continue with: `a b` and `a )` both yield `a` |
| Parsing.OperandParses | src/parser.cpp:49-101 | a rendered operand (parenthesised if binary) parses back as a unary expression and is consumed exactly |
| Parsing.MulOperandParses | src/parser.cpp:32-47 | a rendered operand followed by a token other than `&&` parses back at the `&&` level |
| Parsing.MulParses | src/parser.cpp:32-47 | a rendered conjunction or operand parses back at the `&&` level |
| Parsing.MulOfTwoOperands | src/parser.cpp:34-46 | a unary operand, `&&` and a conjunction parse as their AND, ending where the conjunction ends |
| Parsing.MulOfOneOperand | src/parser.cpp:38-39 | a unary operand not followed by `&&` is the whole conjunction |
| Parsing.AddOfTwoOperands | src/parser.cpp:17-29 | a conjunction, `\|\|` and a conjunction not followed by `\|\|` parse as their OR |
| Parsing.AddOfOneOperand | src/parser.cpp:21-22 | a conjunction not followed by `\|\|` is the whole disjunction |
| Parsing.AddParses | src/parser.cpp:15-30 | a rendered expression followed by a token other than `&&` and `\|\|` parses back at the `\|\|` level |
| Parsing.ParseInvertsRender | src/parser.cpp:10-122 | every expression, rendered as tokens with binary operands parenthesised, parses back to itself and consumes every token before End |
| Pipeline.ParserStaysWithinLexedTokens | src/parser.cpp:119-122 | for every input, the parser stops on or before the lexer's first End or Error token |
| Pipeline.LexAndParseExample | src/parser.cpp:10-122 | the bytes `a && !b` are read as `AND(a, NOT b)` |

## Left out

- The `fmt` formatters of expressions, tokens and positions are rendering on top of a library outside this model. The `subformat`/`parse_fmt` helpers are left out too.
- src/main.cpp is I/O plumbing and is not part of this model: it opens the file, runs the driver loop, prints, and wraps the result in a double negation for display.
- The diagnostics `next_token` writes to `std::cerr` are side output. Only the returned Error token is modelled.
- `read()` reads from a `std::istream`. Here it reads from a byte sequence with a cursor.
- Expressions.Equals: the source's generic `==` throws `std::bad_cast` when it compares two unary nodes, because src/expression.cpp:133 casts the right operand to the binary type. The model gives the structural equality the per-kind operators spell out. So a source run that compares unary subtrees inside `simplify` (for example `!a && !b`) ends in an exception, while the model continues.
- The table is indexed with a signed `char` in the source. Bytes 0x80 and above, and the EOF value, therefore index the table negatively, which is undefined and platform-dependent. The model indexes with bytes 0..255 and uses 255 as the END sentinel.
- The `init_*` routines' loops over a symbol's row are modelled as fills of rectangular sets of cells (`FillCells`). The order of writes within a routine differs from the source, but no two writes of different values meet except the doubled `&&`/`||` cell, which is written last. The final table is proved equal to `Table`.
- `unique_ptr` ownership, `dynamic_cast` dispatch and the virtual `type()` are subsumed by datatypes. Aliasing cannot arise between values.
- `cpow` only computes the constant 256.
- Positions are unbounded naturals. The source's 32-bit line and column counters would wrap around after 2^32 lines or columns.
- The parser reads from a token sequence rather than calling the lexer live. The two are equivalent because the lexer's End token is sticky (`Lexing.EndIsSticky`) and the parser never reads past the first End or Error.

## Findings

| source | as written | input that shows it | evidently intended | confidence | as-written member | corrected member |
|---|---|---|---|---|---|---|
| src/simplifier.cpp:108-111 | when a binary node's simplified operands differ, `binary.clone()` returns the original node, with its operands unsimplified | `!!a && b` is returned unchanged, and `!((a && b) \|\| (!!a && b))` simplifies to `AND(OR(!a, !b), OR(!a, !b))`, leaving `X && X` standing, so the "as much as possible" of simplifier.cpp:7-17 fails; under the intended equality a second pass reduces it to `OR(!a, !b)`, while the source's second pass throws std::bad_cast | rebuild the node from the simplified operands; the result is then fully simplified and `simplify` is idempotent | not executed | Simplifier.SimplifyIsNotIdempotent | Simplifier.SimplifyFixedIdempotent |
