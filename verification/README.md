# alex compiler core, modelled in Dafny

alex is a small compiler for a toy language. A program is a list of
instructions:

- `x = <expr>` assigns;
- `if <rel> then <instr>` guards exactly one instruction;
- `goto :label` jumps;
- `output <term>` prints;
- `:label` declares a jump target.

An expression is a term or two terms joined by `+`, `-` or `*`. A relation
compares two terms with `<`, `<=` or `==`. A term is `input` (one line read
from standard input), a decimal literal, or a variable. The compiler turns
such a program into FASM assembly for x86-64 Linux in four passes:

1. lexing: bytes become tokens (`lexer.go`);
2. recursive-descent parsing: tokens become a syntax tree (`src/parser.go`);
3. the scope pass: every variable read must already be bound, and each
   assignment target gets a stack slot (`src/emit.go`);
4. code generation: the tree becomes assembly text (`src/emit.go`).

This project models those four passes as pure Dafny functions, and
`src/main.go`'s pipeline as their composition.

| module | file | models |
|---|---|---|
| `Wrappers` | wrappers.dfy | `Option` / `Result` with `:-` propagation |
| `Text` | text.dfy | bytes, the Latin-1 letter, digit and space classes the lexer consults, decimal rendering |
| `Lexer`, `LexerLaws` | lexer.dfy, lexer_laws.dfy | `lexer.go` |
| `Ast`, `AstLaws` | ast.dfy, ast_laws.dfy | the syntax tree of `src/parser.go` and its debug renderings |
| `Parser`, `ParserLaws` | parser.dfy, parser_laws.dfy | the parser of `src/parser.go` |
| `Scoping`, `ScopeLaws` | scope.dfy, scope_laws.dfy | `Scope` and the `scope*` functions of `src/emit.go` |
| `Asm`, `AsmLaws` | asm.dfy, asm_laws.dfy | the assembly lines `src/emit.go` prints, as a datatype with one rendering |
| `Emit` | emit.dfy | the `emit*` functions of `src/emit.go` |
| `Machine`, `EmitLaws` | machine.dfy, emit_laws.dfy | a symbolic x86-64 machine for the straight-line instructions the emitter uses, and the correctness of the emitted code against a reference evaluation of the syntax tree |
| `Compiler` | compiler.dfy | `src/main.go`: lex, parse, scope and emit |

## How the source is rendered in Dafny

- Panics become errors.
  - A failed kind check (`expect`) in the parser becomes `Expected(kinds, found)`.
  - An unknown leading token becomes `Unexpected(found)`.
  - An undefined identifier in the scope pass becomes `NotDefined(name)`.
  - Reading past the token slice (a Go index panic) becomes `OutOfTokens(i)`.
  - Each parser function takes a token index and returns the node with the
    index after it (`Parsed(node, next)`), in place of the mutable parser
    cursor.
- The scope is passed along and returned instead of being mutated through
  a pointer. `Emit` reads a scope it cannot change.
- The emitted text is a sequence of `Asm.Line` values. `Asm.Render` gives
  the exact `Printf` text of each line and `Asm.Print` joins the lines with
  newlines. The order of `fmt.Printf` calls is kept line for line.
- The end-to-end proof uses these pieces:
  - `EmitLaws.TermValue`, `ExprValue` and `RelValue` are a reference
    evaluator over an environment.
  - `Machine.Step` gives each emitted line its effect on registers,
    flags, the stack frame and the output.
  - `EmitLaws.Agrees` says a machine state matches a reference world: each
    in-scope variable's slot holds its value, and the input and output
    streams match.
- Machine values are symbolic (`Val`): a literal, the n-th input line, an
  operation of two values, a 0/1 comparison result, or uninitialised.
  Correctness is equality of these terms, not of 64-bit numbers.

Points where the code behaves differently from what a reader might expect,
as the model renders them:

- Declaration follows text order, not control flow.
  `emitProgram` (`src/emit.go:37-40`) scans the instructions once, in
  textual order, and fails on the first variable read before any earlier
  assignment in the text. `ScopeLaws.TextOrderNotControlFlow` shows a
  program rejected even though every run assigns before reading.
- In `scopeInstr` the assignment's right-hand side is checked before the
  target is appended (`src/emit.go:177-181`). So `x = x + 1` as the first
  assignment to `x` is rejected (`ScopeLaws.SelfReferenceRejected`).
- `parseExpr` and `parseRel` dispatch on four token kinds, `Minus`, `Mul`,
  `LessThanEqual` and `DoubleEqual` (`src/parser.go:285-289`,
  `src/parser.go:335-342`). The kind list of `lexer.go:9-23` does not declare
  them, and `nextToken` never produces them. The model keeps them as
  parser-only kinds. So `a - b`, `a * b`, `a <= b` and `a == b` cannot come
  from source text (`LexerLaws.LexLessEqual`). Their debug name is the
  empty string, which is what a lookup of a missing key in the
  `tokenKindName` map (`lexer.go:25-39`) returns.

## Model

| member | source | states |
|---|---|---|
| Text.Latin1 | lexer.go:104-107 | `string(bytes)` on the bytes the lexer accepts keeps length and maps each byte to the character with the same code |
| Text.NatToString | src/emit.go:85-87 | the label counter prints as a non-empty string of decimal digits, a single digit exactly below 10 and with no leading zero otherwise |
| Text.ParseNatRoundTrip | src/emit.go:85-87 | reading the printed counter back gives the counter: the decimal rendering loses nothing |
| Text.NatToStringInjective | src/emit.go:85-87 | distinct counters print as distinct strings, so `.endif` labels of different ifs differ |
| Lexer.SkipSpace | lexer.go:146-150 | skips exactly the white-space bytes from the position on, stops at the first non-space byte (or the end sentinel) and never leaves the buffer |
| Lexer.RunEnd | lexer.go:98-138 | the maximal run of bytes in a class: every byte before the end is in the class, the byte at the end (or the sentinel past the buffer) is not |
| Lexer.ScanToken | lexer.go:85-143 | yields the end token exactly when the current byte is the 0x04 sentinel (`peek` returns it past the buffer), consumes at least one byte for any other token, and never yields a parser-only kind |
| Lexer.ScanInt | lexer.go:108-116 | a digit run consumes at least one byte and stays inside the buffer |
| Lexer.ScanWord | lexer.go:117-138 | a letter/underscore run is one of the five keywords or an identifier and consumes at least one byte |
| Lexer.NextToken | lexer.go:82-88 | after skipping white space: the end token exactly at the sentinel, otherwise a token that moves the position forward |
| Lexer.TokenizeFrom | lexer.go:159-168 | the token list ends with exactly one end token, has no other end token, and holds only kinds the lexer can produce |
| Lexer.Tokenize | lexer.go:152-168 | the same for a whole buffer from position 0 |
| LexerLaws.ShiftTokenizeFrom | lexer.go:82-144 | lexing never looks backwards: the tokens from a position depend only on the bytes from there on, whatever comes before |
| LexerLaws.CutTokenizeFrom | lexer.go:66-72 | a buffer cut at a 0x04 byte lexes like the buffer that merely ends there: `peek` cannot tell the two apart |
| LexerLaws.SentinelStops | lexer.go:82-88 | any bytes after a literal 0x04 byte are ignored |
| LexerLaws.FirstSentinel | lexer.go:82-88 | a buffer lexes like its prefix up to any 0x04 byte in it |
| LexerLaws.LexEmpty | lexer.go:159-168 | empty input gives the single end token |
| LexerLaws.LexSpace | lexer.go:146-150 | a leading white-space byte produces no token and changes nothing else |
| LexerLaws.LexOperator | lexer.go:89-97 | each of `=`, `+`, `<` is one token with an empty value, and lexing continues right after it |
| LexerLaws.WordTokenKind | lexer.go:123-137 | a word is `Ident` exactly when it is not one of `input`, `output`, `goto`, `if`, `then`; an identifier carries its text, a keyword carries none |
| LexerLaws.LexWord | lexer.go:117-138 | a maximal letter/underscore run is one token, a keyword exactly when the run spells one, and lexing continues after the run |
| LexerLaws.LexInt | lexer.go:108-116 | a maximal digit run is one `Int` token carrying the digits, and lexing continues after the run |
| LexerLaws.LexLabel | lexer.go:98-107 | `:` followed by a letter/underscore run is one `Label` token whose value is the run without the colon (possibly empty) |
| LexerLaws.LexInvalid | lexer.go:139-142 | any other byte is one `Invalid` token carrying that byte, and lexing continues with the next byte |
| LexerLaws.LexIdentThenDigit | lexer.go:108-123 | digits never belong to a word: `x1` lexes as identifier `x` then integer `1` |
| LexerLaws.LexLessEqual | lexer.go:89-97 | `<=` lexes as `LessThan` then `Equal`, never as `LessThanEqual` |
| LexerLaws.KindNameReadsBack | lexer.go:25-43 | each kind that has a name can be recovered from that name, and no name contains `(` |
| LexerLaws.TokenStringRoundTrip | lexer.go:50-57 | the debug rendering `Kind(value)` of a named-kind token can be read back to exactly that token |
| LexerLaws.TokenStringInjective | lexer.go:50-57 | two named-kind tokens with the same rendering are the same token |
| AstLaws.TermStringInjective | src/parser.go:123-131 | the renderings of `input`, an integer and an identifier never coincide, and each determines its term |
| Parser.Current | src/parser.go:144-146 | yields the token at the index exactly when the index is inside the slice; outside it is the out-of-range error |
| Parser.Expect | src/parser.go:179-182 | succeeds exactly when the current token has the required kind; otherwise the error names that kind and the one found |
| Parser.ParseTerm | src/parser.go:350-368 | succeeds exactly on `input`, an integer or an identifier and consumes that one token; the term carries the token's text; any other kind is an error listing the three term kinds and the kind found |
| Parser.ParseExpr | src/parser.go:322-348 | a single term exactly when the following token is not `+`, `-` or `*` (one token consumed); otherwise operator and right term (three tokens), and the constructor matches the operator |
| Parser.ParseRel | src/parser.go:272-298 | consumes term, relational operator, term; the constructor matches the operator; a non-relational operator is an error listing the three relational kinds |
| Parser.ParseAssign | src/parser.go:300-320 | succeeds exactly when an identifier and `=` are followed by an expression that parses; the node holds the identifier's name and that expression and ends where the expression ends; an identifier followed by anything but `=` is an error expecting `=` at that token |
| Parser.ParseGoto | src/parser.go:205-224 | succeeds exactly on `goto` followed by a label token, whose value becomes the target; a missing label is an error naming `Label` and the kind found |
| Parser.ParseOutput | src/parser.go:189-203 | succeeds exactly on `output` followed by a term token, and consumes two tokens |
| Parser.ParseLabel | src/parser.go:174-187 | succeeds exactly on a label token and keeps its name |
| Parser.ParseIf | src/parser.go:226-247 | `if`, a relation, a mandatory `then`, then exactly one instruction as the body; a missing `then` is an error naming `Then` and the kind found |
| Parser.ParseInstr | src/parser.go:249-270 | the parsed instruction's leading kind is the current token's kind; a token that starts no instruction is an unexpected-token error |
| Parser.ParseInstrs | src/parser.go:159-172 | at least one instruction, stopping exactly at an end token |
| Parser.ParseProgram | src/parser.go:159-172 | a program has at least one instruction and parses exactly when the instruction loop does |
| ParserLaws.ParserStaysInBounds | src/parser.go:144-172 | on any token list ending with the end token, parsing never reads past the slice |
| ParserLaws.ParseStopsAtEnd | src/parser.go:159-172 | on lexer output a successful parse consumes every token before the final end token |
| ParserLaws.ParseEndOnly | src/parser.go:159-172 | a program of no tokens is rejected as an unexpected end token, not accepted as empty |
| ParserLaws.ParseUnparse | src/parser.go:159-368 | writing any non-empty program back out as tokens and parsing them gives the same program |
| ParserLaws.ParseTermBack | src/parser.go:350-368 | the token of a term parses back to that term, consuming exactly that token |
| ParserLaws.ParseAssignBack | src/parser.go:300-320 | the tokens of an assignment, followed by a non-operator, parse back to that assignment and stop right after it |
| ParserLaws.ParseOutputBack | src/parser.go:189-203 | the tokens of an output instruction parse back to it, two tokens long |
| ParserLaws.ParseGotoBack | src/parser.go:205-224 | the tokens of a goto parse back to it with the same target |
| ParserLaws.ParseLabelBack | src/parser.go:174-187 | the token of a label declaration parses back to it with the same name |
| ParserLaws.ParseExprBack | src/parser.go:322-348 | the tokens of an expression, followed by a non-operator, parse to that expression |
| ParserLaws.ParseRelBack | src/parser.go:272-298 | the tokens of a relation parse to that relation |
| ParserLaws.ParseInstrBack | src/parser.go:249-270 | the tokens of an instruction, properly delimited, parse to that instruction and stop right after them |
| ParserLaws.ParseInstrsBack | src/parser.go:159-172 | the tokens of an instruction list followed by the end token parse to that list |
| ParserLaws.TermMatches | src/parser.go:350-368 | whatever parses as a term is, token for token, what writing that term out gives |
| ParserLaws.ExprMatches | src/parser.go:322-348 | whatever parses as an expression is what writing it out gives, and parsing stops right after it |
| ParserLaws.RelMatches | src/parser.go:272-298 | the same for relations |
| ParserLaws.InstrMatches | src/parser.go:249-270 | the same for instructions, nested `if` bodies included |
| Scoping.Append | src/emit.go:19-21 | the identifier is added at the end; earlier identifiers keep their positions, so their slots never move |
| Scoping.Find | src/emit.go:27-34 | finds an index exactly when the identifier is in scope, and it is the first position holding it |
| Scoping.FindFrom | src/emit.go:27-34 | the search from a position finds the first occurrence at or after it, or none exactly when there is none |
| Scoping.FirstUnbound | src/emit.go:222-231 | none exactly when every identifier read is bound; otherwise an unbound identifier that is read |
| Scoping.ScopeTerm | src/emit.go:222-231 | succeeds exactly when the term reads no unbound identifier, leaves the scope unchanged, and the error names the identifier |
| Scoping.ScopeExpr | src/emit.go:206-220 | succeeds exactly when both operands read only bound identifiers; the error names the first unbound one, left operand first |
| Scoping.ScopeRel | src/emit.go:192-204 | the same for relations |
| Scoping.ScopeInstr | src/emit.go:175-190 | the new scope extends the old one by exactly the instruction's assignment targets and keeps it free of duplicates; an error names an identifier that was not in scope |
| Scoping.ScopeInstrs | src/emit.go:37-40 | the scope after the loop extends the starting scope and stays free of duplicates |
| Scoping.ScopeProgram | src/emit.go:37-40 | the program's final scope has no duplicate identifiers |
| ScopeLaws.ScopeInstrReplay | src/emit.go:175-231 | the scope pass on an instruction is a replay of its use/define events in pre-order, right-hand side before target |
| ScopeLaws.ScopeInstrsReplay | src/emit.go:37-40 | the pass over a list replays the concatenated events |
| ScopeLaws.ReplayDecides | src/emit.go:175-231 | a replay succeeds exactly when every use follows a definition (or an initially bound name); the resulting scope is the initial names plus the defined ones; an error names the first use with no earlier definition |
| ScopeLaws.ScopeProgramDecides | src/emit.go:37-40 | a program passes the scope check exactly when every variable read is assigned earlier in the text; its scope is exactly its assigned names |
| ScopeLaws.SelfReferenceRejected | src/emit.go:177-181 | a first assignment that reads its own target is rejected with that name |
| ScopeLaws.ReplaySlots | src/emit.go:176-181 | a successful replay appends to the scope the names assigned for the first time, in the order of those first assignments, after the names already there |
| ScopeLaws.ScopeInstrsSlots | src/emit.go:37-40 | the scope after the loop is the starting scope followed by the instructions' newly assigned names, in order of first assignment |
| ScopeLaws.ScopeProgramSlots | src/emit.go:37-40 | slot order: a program's scope lists every assigned name once, in the order of its first assignment in the text, which fixes each variable's stack offset |
| ScopeLaws.SlotsByFirstAssignment | src/emit.go:176-181 | reassigning a name keeps its first slot: for distinct names, assigning `b`, then `a`, then `b` again gives the scope `[b, a]` |
| ScopeLaws.TextOrderNotControlFlow | src/emit.go:37-40 | the order that counts is the text, not the control flow: a read placed before the assignment in the text is rejected even when `goto` runs the assignment first |
| AsmLaws.RenderHasNoNewline | src/emit.go:43-170 | no rendered line holds a newline when the identifiers, labels and literals in it hold none |
| AsmLaws.SplitPrint | src/emit.go:43-170 | splitting the printed text at newlines gives back each emitted line, in order, one for one |
| AsmLaws.EndIfNameHasDigit | src/emit.go:85-87 | a generated `endif` label name always contains a digit, so it never equals a label name without digits |
| AsmLaws.LabelsPrintDistinctly | src/emit.go:85-97 | two label definitions print the same exactly when they are the same line, given user labels without digits |
| Emit.Offset | src/emit.go:79 | a slot offset `index*8+8` is a positive multiple of 8 |
| Emit.SlotOf | src/emit.go:78-79 | an identifier has a slot exactly when it is in scope; the slot lies in the frame `[8, 8*len(idents)]` and is a multiple of 8 |
| Emit.EmitTerm | src/emit.go:155-170 | succeeds exactly when the term's identifier is in scope; the code jumps nowhere, and every load uses its identifier's own slot |
| Emit.EmitExpr | src/emit.go:130-153 | the same for expressions, both operands |
| Emit.EmitRel | src/emit.go:101-128 | the same for relations |
| Emit.EmitAssign | src/emit.go:76-79 | succeeds exactly when the expression's identifiers and the target are in scope; the code jumps nowhere, leaves the if-counter alone, and loads and stores each identifier at its own slot |
| Emit.EmitOutput | src/emit.go:90-95 | succeeds exactly when the printed term's identifier is in scope; the code jumps nowhere and leaves the if-counter alone |
| Emit.EmitInstr | src/emit.go:74-99 | succeeds exactly when every identifier the instruction loads or stores is in scope (a `goto` target is never checked); the if-counter grows by the number of ifs, each `jz`/`.endif` pair gets its own number in that range, and every slot matches its identifier |
| Emit.EmitIf | src/emit.go:80-87 | succeeds exactly when the relation and the body load only in-scope identifiers; the `if` uses one counter value for its own `jz`/`.endif` pair and its body's ifs the values after it, each number labelling exactly one pair |
| Emit.EmitInstrs | src/emit.go:56-59 | the same over the instruction loop, with one shared counter |
| Emit.EmitProgram | src/emit.go:36-72 | emission happens only after a successful scope pass; a scope failure is reported as such, with nothing emitted |
| Emit.EmitText | src/emit.go:36-72 | the text is produced exactly when the line list is |
| Machine.RunReadInput | src/emit.go:157-163 | the `input` sequence leaves the next input line's number in rax, consumes one line, and keeps r12, the frame and the output |
| Machine.RunArithTail | src/emit.go:134-151 | the arithmetic tail leaves `r12 op rax` in rax and touches neither the frame nor the streams |
| Machine.RunCompareTail | src/emit.go:101-128 | the comparison tail leaves the 0/1 outcome of `r12 cond rax` in rax |
| Machine.RunWriteTail | src/emit.go:90-95 | the output tail appends rax's value and a newline to stdout and keeps the frame |
| EmitLaws.SlotsDistinct | src/emit.go:27-34 | two in-scope identifiers share a slot exactly when they are the same identifier |
| EmitLaws.RunTerm | src/emit.go:155-170 | the term's code leaves the term's value in rax, reads one line exactly for `input`, and keeps r12, the frame and the output |
| EmitLaws.RunOperands | src/emit.go:134-151 | the operand code leaves the left value in r12 and the right in rax, with `input` on the left read first |
| EmitLaws.RunExpr | src/emit.go:130-153 | the expression's code leaves the expression's value in rax and keeps the frame and the output |
| EmitLaws.RunBinary | src/emit.go:134-151 | a binary expression's code computes the operator applied to left and right values |
| EmitLaws.RunRel | src/emit.go:101-128 | the relation's code leaves the 0/1 comparison result in rax |
| EmitLaws.RunAssign | src/emit.go:76-79 | after an assignment's code, the target's slot holds the expression's value and every other variable keeps its value |
| EmitLaws.RunOutput | src/emit.go:90-95 | after an output's code, stdout has gained the term's value and a newline, and no variable changed |
| EmitLaws.RunStraight | src/emit.go:56-59 | a list of assignments, outputs and labels runs exactly like the reference evaluation |
| EmitLaws.StraightProgramCorrect | src/emit.go:36-72 | for a program without jumps, the compiled body prints exactly what the program prints, reads exactly as many lines, and ends with every variable's slot holding its value |
| EmitLaws.EmitSucceedsAfterScope | src/emit.go:36-40 | code generation fails exactly when the scope pass fails; once the scope pass succeeds no lookup can fail |
| EmitLaws.SlotsInFrame | src/emit.go:54-61 | `sub rsp` and `add rsp` use the frame size, and every load and store lies inside that frame at its identifier's slot |
| EmitLaws.EndIfsUnique | src/emit.go:56-87 | across the whole program each `.endif` number is defined once and jumped to once, numbered from 0 |
| EmitLaws.IfLayout | src/emit.go:80-87 | the `jz` follows the test directly, and the matching `.endif` closes the block |
| EmitLaws.RunIfCondition | src/emit.go:81-84 | when `jz` is reached the zero flag reflects the relation's 0/1 value |
| EmitLaws.EndIfLabelsDistinct | src/emit.go:85-97 | in a program whose labels have no digits, an `.endif` label never prints like any other label in the output |
| Compiler.CompileLines | src/main.go:14-19 | compilation succeeds exactly when the tokens parse and the program passes the scope check; a parse error never reads past the tokens; a later failure is the scope error |
| Compiler.Compile | src/main.go:14-19 | the text is produced exactly when the lines are, and carries the same error otherwise |
| Compiler.TokenizeLabels | lexer.go:98-107 | a label token never contains a digit |
| Compiler.ParseInstrsLabels | src/parser.go:174-187 | parsed label names come from label tokens, so they have no digits |
| Compiler.CompiledEndIfsDistinct | src/emit.go:85-97 | for any source text, no generated `.endif` label clashes with a user label or another `.endif` in the assembly |

## Left out

- `main.go` (the token and tree dump at the top level) is not part of this model: it only prints.
- Compiler.Compile: `src/main.go` reads the fixed file `example.alex` and reports a read error. The model takes the bytes as a parameter.
- The `Scope: [...]` line written to stderr at `src/emit.go:41` is a diagnostic with no effect on the output and is not modelled.
- `src/lib.asm` (`read`, `write`, `strlen`, `parse_uint`, `write_uint`) is not part of this model. `Machine.Step` assumes these effects: `write_uint` appends the number in rsi to stdout, `read` consumes the next input line, `strlen` returns its length and `parse_uint` its value in rax. It also assumes that one `read 0, line, LINE_MAX` returns exactly one whole line. A pipe can deliver several lines, or part of one, in a single read, and a shorter line leaves the previous line's bytes after its newline for `strlen` to count; the model does not cover such input. `EmitLaws.StraightProgramCorrect`'s count of lines read rests on this assumption. The assumption is that they follow the System V calling convention: rbx, rbp, rsp and r12–r15 are preserved, rdi and rsi are clobbered.
- EmitLaws.StraightProgramCorrect: covers programs without `goto` and `if`. Jumps are not executed by the model; for `if`, `EmitLaws.RunIfCondition` proves the code up to the `jz` test, and `EmitLaws.IfLayout` and `EmitLaws.EndIfsUnique` the block structure: the `jz` target is the `.endif` label that closes the body, and each label is defined and targeted once.
- Machine values are symbolic terms. The model does not interpret 64-bit wrap-around, signed comparison of `setl`/`setle`, or `parse_uint` overflow.
- Text.IsLetter: Go's `unicode.IsLetter` / `unicode.IsSpace` are applied to `rune(byte)`, so only code points 0–255 occur. The model writes out the Latin-1 subset of those classes, not the general Unicode tables.
- Panic messages (`fmt.Errorf` text) are not reproduced. The errors keep the same information: the kinds expected and found, or the identifier.
- LexerLaws.TokenStringRoundTrip: holds for kinds with a name in `tokenKindName` (`lexer.go:25-39`). The four parser-only kinds have no entry in `tokenKindName` and render with an empty name, and two of their tokens can print alike.
- Ast.ExprString / Ast.RelString / Ast.InstrString: rendered from the same templates as `src/parser.go:30-106`. Injectivity is proved only for terms.
- The `invalid` token's fate follows the parser: wherever it appears, some kind check or the instruction dispatch rejects it. No separate lexical error kind is modelled.
