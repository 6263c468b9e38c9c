# RDPostfix in Dafny

RDPostfix compiles a small block language into postfix IR. A program looks
like `begin var x, y; x = 3 + 4; while (x) x = x - 1; end.`. This project
models its two core parts and proves properties of them:

- **the scanner** (`scanner.cpp`). It keeps a buffer made of the source text plus
  the sentinel `$`, a cursor, and a line counter. `nextToken` skips whitespace
  and `~` comments, then reads one of the following:
  - a number;
  - a string;
  - a word, which is a keyword or an identifier;
  - a one- or two-character operator;
  - at the sentinel, the end-of-input token `end.`.
- **the parser** (`parser.cpp`). It is a recursive-descent parser with one
  lookahead token, a symbol table of declared names, a label counter and an
  IR vector of `(tag, operand)` pairs. As it recognises each construct it
  appends the construct's code in postfix order:
  - `EVAL`, `PUSH` and `STORE`;
  - `PLUS`, `MINUS`, `TIMES` and `DIV`;
  - `LABEL`, `BZ` and `BR`.

  The first error ends the parse.

The model is split into seven modules.

| module | file | role |
|---|---|---|
| `Decimal` | `decimal.dfy` | Decimal text of integers. It covers what `std::stoi` and `std::to_string` do on the digit runs the scanner collects, and their round trips. |
| `Lexicon` | `lexicon.dfy` | The scanner's constants, its character classes, `OP_TABLE`, `KEYWORD_TABLE` and the token record. |
| `LexSpec` | `lexspec.dfy` | A function for each scanner routine, stating where it leaves the cursor and what it returns. `Next` is `nextToken`. `Lexes` says that repeated `nextToken` calls return a given token sequence. The file also has lemmas on lexing known text. |
| `Scanning` | `scanner.dfy` | `class Scanner`, with the source's fields and one method per routine. Each method is proved to compute exactly its `LexSpec` function. The line counter is always one plus the newlines behind the cursor. |
| `Ir` | `ir.dfy` | The IR entry, the label names `L0`, `L1`, …, and views of a code vector: its labels, its jump targets and the names it reads. It also has a small stack machine that gives the arithmetic part of the IR a meaning. |
| `Syntax` | `syntax.dfy` | Trees for expressions, statements, statement lists, declarations and programs. For each tree it gives the tokens it is written as and the IR the parser emits for it. The lemmas state that expression code computes the expression's value with left-associative, standard-precedence arithmetic. They also state that labels are defined once, every jump lands on a defined label, and the code reads only what the program reads. |
| `Parsing` | `parser.dfy` | `class Parser`, with one method per parsing procedure. Each method returns the tree it recognised as a ghost result. It is proved to have moved past exactly that tree's tokens, in the order the scanner produces them, and to have appended exactly that tree's IR. Declarations are checked for redefinition, and expressions read only declared names. `Compile` runs the whole pipeline on a source text. |

The parser's `error` prints a message and calls `exit(1)`. The model
represents this as a returned `Outcome`, either `Pass` or
`Fail(Diagnostic(line, message))`:

- each procedure returns `Fail` at the point where the source calls `error`;
- every caller returns a `Fail` unchanged, which gives the same fail-fast behaviour;
- the line in a diagnostic is always the scanner's line counter at that moment.

The scanner's own `error` only prints a message and keeps going. The model
therefore has no diagnostic there: the scanner returns the same `error`
token as the source, and the parser then rejects that token.

Where the documented design of the system and the code disagree, the
model follows the code:

- **Undeclared assignment targets are accepted.** An assignment's target is
  never looked up in the symbol table (`parser.cpp:114-120`). So
  `begin var x; y = 1; end.` parses, and `StmtReads` leaves assignment
  targets out.
- **Lexical errors do not stop the scan.** A number followed by a letter, or
  a malformed word, only prints a message and yields an `error` token. The
  parser then rejects that token.
- **An unterminated string is not an error.** It yields an empty string
  constant.
- **An unknown character becomes the token kind `""`** and is not consumed.
- **Whitespace directly before the sentinel yields the unknown token.** This
  is not the end-of-input token (`LexSpec.TrailingBlanks`). The next call then
  returns the end-of-input token.
- **A program whose statement part stops at a statement boundary before
  `end.` gets "statement expected".** The error is about the missing
  statement, not about the missing `end.`. The
  end-of-input token has kind `end.`, not `endSym`, so the statement loop
  meets it as a statement start that it does not accept.

## Model

| member | source | states |
|---|---|---|
| Decimal.NatToString | parser.cpp:191 | The decimal text of a natural number is a non-empty run of digits with no leading zero. |
| Decimal.ValueOfNatToString | scanner.cpp:316 | Reading back the digits `std::to_string` writes gives the number again. |
| Decimal.ParseIntToString | parser.cpp:191 | The PUSH operand text of any integer parses back to that integer. |
| Decimal.NatToStringInjective | parser.cpp:225 | Different numbers have different decimal texts. |
| LexSpec.NewlinesMonotone | scanner.cpp:117-122 | Moving the cursor forward never lowers the line count. |
| LexSpec.RunEnd | scanner.cpp:214-221 | skipStar stops at the end of the maximal run of characters from the set. Everything it passed is in the set, and it never steps over the sentinel. |
| LexSpec.RunEndExact | scanner.cpp:214-221 | The stop of skipStar is determined by the run: any maximal run ending at j gives j. |
| LexSpec.UpTo | scanner.cpp:155-167 | find stops at the first character from the stop set. Everything it passed is outside that set. |
| LexSpec.UpToExact | scanner.cpp:155-167 | The stop of find is the first stop character and nothing else. |
| LexSpec.CommentEnd | scanner.cpp:244-251 | skipComment ends just past the first newline, or at the sentinel, and passes no newline before that. |
| LexSpec.JumpEnd | scanner.cpp:258-264 | jump moves exactly when it starts on whitespace or on a comment marker, and otherwise stays put. From whitespace it passes exactly the maximal whitespace run. From `~` it passes the rest of the line, newline included, or stops at the sentinel. |
| LexSpec.SkipBlanks | scanner.cpp:270-274 | jumpStar stops on a character that is neither whitespace nor a comment marker, and does not move when it starts on one. |
| LexSpec.CommentCovered | scanner.cpp:244-251 | Everything skipComment passes before its newline lies inside the comment: a `~` earlier on the same line. |
| LexSpec.InCommentWiden | scanner.cpp:270-274 | A position inside a comment opened after a later start is inside a comment opened after any earlier start too. |
| LexSpec.BlankRunOutsideComment | scanner.cpp:258-262 | A whitespace run that skipWS passes from a start lies in no comment opened after that start. |
| LexSpec.LeftComment | scanner.cpp:244-251 | Once a newline has closed the comments opened before a position, a later character lies in a comment counted from the earlier start only if it lies in one counted from that position. |
| LexSpec.SkipBlanksPasses | scanner.cpp:244-274 | jumpStar passes only whitespace and characters inside comments: each passed character is whitespace or follows a `~` on its own line. Unless it stops at the sentinel, it stops outside every comment it entered: it runs past the newline ending each one. |
| LexSpec.ScanNumber | scanner.cpp:301-318 | NUM takes the maximal digit run. It returns the error token when a letter follows, and otherwise a numConstant holding the run's value. |
| LexSpec.WordEnd | scanner.cpp:389-407 | The ID loop stops at the first non-word character, or at the second of two adjacent underscores, and says which of the two it was. |
| LexSpec.WordToken | scanner.cpp:421-436 | A word that passed the checks becomes a well-formed token that is never the error token: its keyword kind, or an identifier. |
| LexSpec.WordVerdict | scanner.cpp:409-436 | After the loop, ID gives a real token exactly when the loop did not stop on a doubled underscore and the word does not end in `_`. |
| LexSpec.ScanWordStop | scanner.cpp:389-436 | Where the loop of ID stops decides the token: ScanWord is the verdict on the word up to that stop. |
| LexSpec.ScanWord | scanner.cpp:373-437 | ID returns an error token without moving on a non-letter. Everything it passes after the first letter is a word character, with no doubled underscore. A good word gives its keyword kind or an identifier carrying exactly the word. Any other error is a doubled or a trailing underscore. |
| LexSpec.ScanString | scanner.cpp:442-450 | STR returns a stringConstant holding exactly the characters between the quotes. An unterminated string gives "" and stops on the sentinel. |
| LexSpec.TwoChar | scanner.cpp:461-469 | twoCharSym takes two characters and the second token kind exactly when the next character is the expected one. Otherwise it takes one character and the first kind. |
| LexSpec.Next | scanner.cpp:475-558 | nextToken returns a well-formed token and never passes the sentinel. Every token other than end-of-input and unknown consumes text. The end-of-input token comes exactly at the sentinel, and there nothing moves. |
| LexSpec.StepsSnoc | parser.cpp:245-248 | One more nextToken call adds one step to the recorded stream: the token it returns, and the cursor where it stops. |
| LexSpec.StepsLexes | parser.cpp:245-248 | A recorded stream of steps is a lexing: nextToken calls from the first cursor return exactly those tokens and stop at the last cursor. |
| LexSpec.WordEndExact | scanner.cpp:391-407 | The ID loop over a word with no doubled underscore stops exactly at the word's end. |
| LexSpec.NextAtDigit | scanner.cpp:486-496 | With no blank under the cursor, a digit starts NUM. |
| LexSpec.NextAtLetter | scanner.cpp:486-515 | With no blank under the cursor, a letter starts ID. |
| LexSpec.LexNumeral | scanner.cpp:301-318 | The decimal text of n lexes to the numConstant n, or to the error token when a letter follows it. |
| LexSpec.LexWord | scanner.cpp:373-437 | A well-formed word lexes to its keyword kind, or to an identifier carrying exactly the word, and the cursor ends at the word's end. |
| LexSpec.LexString | scanner.cpp:442-450 | A quoted text without quotes lexes to a stringConstant holding exactly that text, and the cursor moves past the closing quote. |
| LexSpec.LexUnterminatedString | scanner.cpp:442-450 | A string still open at the sentinel lexes to an empty stringConstant with the cursor on the sentinel. |
| LexSpec.LexOperator | scanner.cpp:544-550 | Each character of OP_TABLE is a one-character token of its table kind. |
| LexSpec.OpCharFacts | scanner.cpp:478-550 | No OP_TABLE character is blank, starts a comment, a number, a string or a word, or is one of the comparison characters, so nextToken reaches the table for it. |
| LexSpec.LexUnknown | scanner.cpp:552-557 | A character that is not the sentinel, a blank, a comment marker, a digit, a quote, a letter, a comparison character or an OP_TABLE key is the token of kind `""`, and nothing is consumed. |
| LexSpec.LexComparison | scanner.cpp:518-541 | `=`, `!`, `>` and `<` become the two-character kinds exactly when `=` follows, and the one-character kinds otherwise. |
| LexSpec.BlanksAreSkipped | scanner.cpp:486 | Whitespace and comments before a token do not change the token. |
| LexSpec.TrailingBlanks | scanner.cpp:478-557 | Whitespace that runs up to the sentinel yields the unknown token, not the end-of-input token. |
| Scanning.Scanner.constructor | scanner.cpp:77-79 | The buffer is the source plus the sentinel, the cursor is at 0, and the line is 1. |
| Scanning.Scanner.Init | scanner.cpp:89-93 | Resets the cursor to the start. |
| Scanning.Scanner.CurrentCh | scanner.cpp:109-111 | Any character under the cursor other than the sentinel has a successor in the buffer. |
| Scanning.Scanner.Move | scanner.cpp:117-122 | Advances one character and counts a newline it steps over. |
| Scanning.Scanner.Eat | scanner.cpp:140-146 | Like move, but at the sentinel nothing changes. |
| Scanning.Scanner.Find | scanner.cpp:155-167 | Stops where UpTo says. Returns the characters passed, or "" when the sentinel came first. |
| Scanning.Scanner.SkipStar | scanner.cpp:214-221 | Stops where RunEnd says and returns exactly the characters passed. |
| Scanning.Scanner.SkipWS | scanner.cpp:227-237 | Stops at the end of the whitespace run; the trailing `'\r'` loop never runs. |
| Scanning.Scanner.SkipComment | scanner.cpp:244-251 | Stops where CommentEnd says. |
| Scanning.Scanner.Jump | scanner.cpp:258-264 | Stops where JumpEnd says. |
| Scanning.Scanner.JumpStar | scanner.cpp:270-274 | Stops where SkipBlanks says. |
| Scanning.Scanner.Num | scanner.cpp:301-318 | Returns the token and stops at the position ScanNumber gives. |
| Scanning.Scanner.WordLoop | scanner.cpp:389-407 | The loop of ID stops where WordEnd says, says whether it stopped on a doubled underscore, and returns exactly the characters it passed. |
| Scanning.Scanner.Id | scanner.cpp:373-437 | Returns the token and stops at the position ScanWord gives, including every error exit of the loop. |
| Scanning.Scanner.Str | scanner.cpp:442-450 | Returns the token and stops at the position ScanString gives. |
| Scanning.Scanner.TwoCharSym | scanner.cpp:461-469 | Returns the kind and stops at the position TwoChar gives. |
| Scanning.Scanner.NextToken | scanner.cpp:475-558 | Returns the token and stops at the position Next gives. The line counter never goes down and keeps counting the newlines behind the cursor. |
| Scanning.Scanner.GetLineNumber | scanner.cpp:564-566 | The line is one plus the number of newlines before the cursor. |
| Ir.LabelNameInjective | parser.cpp:222-226 | Different counter values give different label names. |
| Ir.LabelNumberOfName | parser.cpp:222-226 | The counter value can be read back from a label name. |
| Syntax.OpKind | parser.hpp:35-40 | Every operator's token kind is a key of opMap. |
| Syntax.OpOfKind | parser.hpp:35-40 | Every key of opMap stands for the operator whose kind it is. |
| Syntax.RunOperator | parser.cpp:137 | The entry emitted from opMap pops the two operands and pushes their sum, difference, product or truncated quotient. |
| Syntax.CompileExprCorrect | parser.cpp:129-202 | The postfix code of an expression pushes exactly its value onto any stack. The run is stuck exactly when the value is undefined. |
| Syntax.CompiledExprValue | parser.cpp:129-202 | Run from an empty stack, the code of an expression leaves exactly its value. |
| Syntax.ExprViews | parser.cpp:167-202 | Expression code defines no label, jumps nowhere, and EVALs exactly the names the expression mentions. |
| Syntax.LeftAssociative | parser.cpp:129-139 | `a - b - c` groups as `(a - b) - c`, never as `a - (b - c)`, and compiles to EVAL a, EVAL b, MINUS, EVAL c, MINUS. |
| Syntax.TimesBindsTighter | parser.cpp:148-158 | In `a + b * c` the product is the right operand of the sum, and the code multiplies before it adds. |
| Syntax.IfViews | parser.cpp:300-310 | An if statement's code defines its body's labels and then its skip label. It jumps to the skip label and wherever the body jumps. |
| Syntax.IfHeadViews | parser.cpp:303-307 | An if statement's guard and BZ define no label, jump only to the skip label and EVAL the guard's names. |
| Syntax.WhileHeadViews | parser.cpp:320-327 | A while statement's head defines the repeat label and branches to the exit label. |
| Syntax.WhileTailViews | parser.cpp:329-330 | A while statement's tail branches back to the repeat label and defines the exit label. |
| Syntax.WhileViews | parser.cpp:318-331 | A while statement's code defines its repeat label, its body's labels and its exit label, in that order. It jumps to both of its own labels and wherever the body jumps. |
| Syntax.IfLabels | parser.cpp:300-310 | If a body's labels are distinct, lie above the skip label and cover its jumps, the if statement's do too. |
| Syntax.WhileLabels | parser.cpp:318-331 | If a body's labels are distinct, lie above both loop labels and cover its jumps, the while statement's do too. |
| Syntax.StmtLabels | parser.cpp:275-331 | For a statement whose labels were drawn from the counter in order, every label is defined once, and all lie in the range the statement drew. Every jump lands on a defined label, and EVAL reads exactly the names the statement reads. |
| Syntax.ItemsAppend | parser.cpp:256-266 | Splitting a statement list anywhere splits its tokens and its code the same way. |
| Syntax.ItemsAppendCounts | parser.cpp:256-266 | Splitting a statement list splits the names it reads and the labels it draws. Numbered halves make a numbered whole. |
| Syntax.ItemsSnocCounts | parser.cpp:256-266 | One more statement adds its reads and labels. The list stays numbered exactly when that statement continues the counter. |
| Syntax.ItemsLabels | parser.cpp:256-266 | The label and scope facts of StmtLabels hold for a whole statement list. |
| Syntax.ProgramResolved | parser.cpp:97-105 | A program whose labels were drawn from L0 on has resolved code: each label is defined once and every jump has its target. The code EVALs exactly the names the statements read. |
| Syntax.AssignmentExampleTokens | parser.cpp:97-105 | `begin var x; x = 3 + 4; end.` is written as eleven given tokens. |
| Syntax.AssignmentExample | parser.cpp:114-139 | That program compiles to PUSH 3, PUSH 4, PLUS, STORE x. |
| Syntax.ConditionalExample | parser.cpp:300-310 | `begin var x; if (x) x = 1; end.` compiles to EVAL x, BZ L0, PUSH 1, STORE x, LABEL L0. |
| Syntax.LoopExample | parser.cpp:318-331 | `begin var x; while (x) x = 0; end.` compiles to LABEL L0, EVAL x, BZ L1, PUSH 0, STORE x, BR L0, LABEL L1. |
| Parsing.BinParsed | parser.cpp:129-158 | One round of an operator loop extends the tokens taken and the IR by exactly those of the left-grouped binary expression, whose names are all declared. The result is still a term or an expression. |
| Parsing.ParenParsed | parser.cpp:194-198 | `(`, an expression's tokens and `)` are the tokens of the parenthesised expression. |
| Parsing.CondTokens | parser.cpp:300-308 | `if`, then a parenthesised guard's tokens, then a statement's tokens, are the if statement's tokens. |
| Parsing.CondCode | parser.cpp:303-309 | The guard's code, BZ to the skip label, the body's code and LABEL of the skip label are the if statement's code. |
| Parsing.LoopTokens | parser.cpp:318-328 | `while`, then a parenthesised guard's tokens, then a statement's tokens, are the while statement's tokens. |
| Parsing.LoopCode | parser.cpp:321-330 | LABEL of the repeat label, the guard's code, BZ to the exit label, the body's code, BR back and LABEL of the exit label are the while statement's code. |
| Parsing.CondFits | parser.cpp:300-310 | The tokens cond takes and the code it emits, in its order, are those of an if statement numbered by the label it drew. |
| Parsing.LoopFits | parser.cpp:318-331 | The tokens loop takes and the code it emits, in its order, are those of a while statement numbered by its two labels. |
| Parsing.AssignParsed | parser.cpp:114-120 | Identifier, `=`, an expression, then STORE after the expression's code are an assignment's tokens and code. |
| Parsing.ItemsFitStatement | parser.cpp:258-264 | A parsed statement extends a parsed statement list. |
| Parsing.ItemsFitSemicolon | parser.cpp:259-261 | A semicolon extends a parsed statement list without code or labels. |
| Parsing.ItemsFitJoin | parser.cpp:101-103 | Statement lists parsed one after the other make one parsed list. |
| Parsing.NamesFitGrow | parser.cpp:384-395 | A new name not yet in the table extends a declaration group, keeps its names distinct and adds the name to the table. |
| Parsing.DeclsFitGroup | parser.cpp:379-399 | `var`, a non-empty group and `;` extend the declarations, which declare every name once. |
| Parsing.ProgramFitsOf | parser.cpp:97-105 | `begin`, the declarations, the statements and `end.` make a parsed program. |
| Parsing.Parser.constructor | parser.cpp:17-19 | The first token is fetched, no token is taken, the IR and the table are empty, and the label counter is -1. |
| Parsing.Parser.Scan | parser.cpp:245-248 | The lookahead joins the taken tokens, and the new lookahead is the scanner's next token. Consuming tokens make progress. |
| Parsing.Parser.Expect | parser.cpp:79-88 | Passes exactly when the lookahead has the expected kind. It moves past the lookahead unless the kind is endSym. On failure it reports the expected kind and the token found, on the current line. |
| Parsing.Parser.NewLabel | parser.cpp:222-226 | The counter goes up by one, and the label is that counter value's name. |
| Parsing.Parser.Emit | parser.cpp:235-238 | Appends exactly one entry; the entries already there are unchanged. |
| Parsing.Parser.Identifier | parser.cpp:339-351 | Passes exactly on an identifier and returns its name. Otherwise it fails with "identifier expected". |
| Parsing.Parser.Factor | parser.cpp:167-202 | A declared name gives EVAL and a number gives PUSH. An undeclared name fails naming it. Any token other than a name, a number or `(` fails with "factor expected". On success it moved past exactly a factor's tokens and emitted its code. |
| Parsing.Parser.Parenthesised | parser.cpp:194-198 | `(` expression `)` is parsed as a factor that emits only the inner expression's code. |
| Parsing.Parser.Term | parser.cpp:148-158 | On success it moved past a term's tokens, grouped to the left, and emitted its postfix code. No `*` or `/` follows. |
| Parsing.Parser.Expression | parser.cpp:129-139 | On success it moved past an expression's tokens, grouped to the left with `*` and `/` binding tighter, and emitted its postfix code. No `+` or `-` follows. |
| Parsing.Parser.Assignment | parser.cpp:114-120 | Parses an assignment and emits its right-hand side's code and then STORE. A non-identifier start fails with "identifier expected". |
| Parsing.Parser.Guard | parser.cpp:304-307 | Moves past a parenthesised expression of declared names, emits its code and then BZ to the skip label. |
| Parsing.Parser.GuardedStmt | parser.cpp:304-308 | The guard and then one statement: the tokens and code of the guard, then those of a statement numbered from the current counter. |
| Parsing.Parser.Cond | parser.cpp:300-310 | Parses an if statement numbered by the label it draws and emits its code. |
| Parsing.Parser.Loop | parser.cpp:318-331 | Parses a while statement numbered by the two labels it draws and emits its code. |
| Parsing.Parser.Stmt | parser.cpp:275-291 | Dispatches on the lookahead. At `end.` it accepts nothing; any other token outside identifier, if and while fails with "statement expected". |
| Parsing.Parser.Stmts | parser.cpp:256-266 | Parses statements and semicolons as a numbered statement list. It stops on a token that is not a semicolon, and a semicolon right before `end.` ends it. |
| Parsing.Parser.Declarand | parser.cpp:386-393 | One name of a declaration group, with its optional comma. It passes only on a name not yet in the table. A name already there fails with the redefinition of that name, on the current line. |
| Parsing.Parser.IdentifierList | parser.cpp:384-395 | Parses a non-empty group of distinct names, each with an optional comma, that were not declared before, and adds them to the table. A group whose first name is already declared fails with the redefinition of that name. Any redefinition failure names a declared name. |
| Parsing.Parser.VarDeclarations | parser.cpp:379-399 | Parses declaration groups while `var` comes. The names are declared once each and added to the table. |
| Parsing.Parser.ParseProgram | parser.cpp:97-105 | Parses a whole program and stays on `end.`. It emits the program's code, with labels drawn in order and statements reading only declared names. A start other than `begin` fails. |
| Parsing.Parser.Parse | parser.cpp:26-38 | A successful parse always ends on `end.`, so the later check for `end.` never fires. |
| Parsing.Compile | main.cpp:34-40 | On success, the source text lexes to the tokens of the program recognised and the IR is that program's code. The labels are resolved, every name is declared once, and the code EVALs only declared names. On failure there is no IR. |

## Left out

- Console output is not modelled: the DEBUG lines of `ID`, the "Successfully parsed!" banner, `printRPN`, `printIdentifiers` and `formatError`'s text rendering. A diagnostic is the line and a structured message, not its text.
- `exit(1)` in the parser's `error` and the `try`/`catch` in `parse` are modelled as the `Fail` outcome, which every procedure returns unchanged.
- The scanner's `error` is not modelled beyond the token it leads to, because it only prints. This covers the message for eating at the sentinel and the one for an unterminated string.
- Command-line handling and reading the file in `main.cpp` are left out. `Parsing.Compile` takes the text as a parameter.
- `findStar`, `skip` and the `currentText` and `currentToken` fields are never used by the core, so they are not modelled.
- The hash order of the symbol table and of opMap cannot be observed except through `printIdentifiers`. They are modelled as a set and a map.
- `std::holds_alternative` checks in `factor` and `Identifier`: the parser's invariant keeps the lookahead well formed, so their error branches cannot happen and are not modelled.
- Decimal.ValueOfNatToString: `std::stoi` overflow (`out_of_range` past 2^31-1) and 32-bit `int` are not modelled, because numbers are unbounded here.
- Parsing.Parser.Factor: a numConstant that would overflow `std::stoi` in the scanner is not modelled. The scanner already would have thrown there.
- Parsing.Parser.Cond: requires the lookahead to be `if`, and only `Stmt` calls it that way. The source scans that token without checking it.
- Parsing.Parser.Loop: requires the lookahead to be `while`, and only `Stmt` calls it that way. The source scans that token without checking it.
- Parsing.Parser.Guard: on failure it states only the diagnostic's line, not that a missing `(` gives `Expected("lParen", …)`. Proving the message there doubled the proof cost of `Loop`.
- Parsing.Parser.IdentifierList: does not restate the "identifier expected" failure at a non-identifier. `Identifier` states it, and repeating it here cost too much proof time.
- Parsing.Parser.IdentifierList: forces the redefinition failure only for the group's first name. For a later name it states only that a redefinition failure names a declared name, because the later names are not part of the state the contract can see.
- Parsing.Parser.VarDeclarations: states only that a redefinition failure names a declared name. Forcing that failure is stated by `Declarand` and `IdentifierList`, since the name after `var` is not visible in the state before the call.
- Parsing.Parser.Term: on failure it states only the diagnostic's line. The message is stated by the member that raises it (`Factor`, `Expect`).
- Parsing.Parser.Expression: on failure it states only the diagnostic's line. The message is stated by the member that raises it.
- Parsing.Parser.Stmts: on failure it states only the diagnostic's line. The message is stated by the member that raises it.
- Parsing.Parser.ParseProgram: only the `begin` failure is stated with its message. Other failures state their line.
- Parsing.Compile: states soundness, meaning that what parses lexes to a program's tokens and compiles to its code. It does not state completeness, meaning that every such program parses, or that the grammar is unambiguous.
- Guard, GuardedStmt, Parenthesised, IdentifierList, Declarand and WordLoop are separate methods. In the source they are the middle of `Cond`/`Loop`, the `lParen` branch of `factor`, the inner `do`-`while` of `VarDeclarations` and its body, and the loop of `ID`. The calls happen in the same order and on the same state.
- The tokens and code of `if` and `while` are written in the order the parser takes and emits them (keyword, guard, body; head, body, `BR`, `LABEL`), so the grouping of the concatenations follows the source's order of calls.
- The stack machine of `Ir` is this model's own reading of the IR. The source only prints the IR. `STORE`, `LABEL`, `BZ` and `BR` are given meaning through the label and scope views, not through execution.
- Characters are Dafny `char`s, which are Unicode scalar values, while `scanner.cpp` reads bytes. The model matches the source when each byte of the file is given to `Parsing.Compile` as one `char`. This works because every character class the scanner tests is ASCII. The payload of a string constant with non-ASCII bytes is then that byte sequence, one `char` per byte.
- The `'\r'` loop in `skipWS` and the `end.` check after `program()` in `parse` cannot run. The model proves that they cannot and does not repeat them as code.
