# boyo compiler core in Dafny

boyo is a small language of byte vectors that compiles to C++. A program is one
statement per line:

- `let A 0x10` binds a hex literal;
- `def double _a => * 0x10 _a` defines a function whose body is an expression in
  Polish (prefix) notation over `+`, `-` and `*`;
- `main double A` calls a function and prints its result;
- a line starting with `//` is a comment.

The compiler runs in stages. The lexer classifies the words of a line into tokens.
The parser builds statements, and the expression parser builds trees from the body
tokens. Each statement generates its C++. Program assembly keeps definitions and
`main` calls apart with a split marker, then splices both parts into a C++ template
at the `{boyo_program_start}` and `{boyo_program_end}` markers. The generated C++
calls three byte-vector helpers. An older pipeline is modelled in its own module: it
knows only comments and `print`, takes whole lines, and has no lexer. `ShellEscape`
turns a string into one single-quoted shell word.

The model follows the code as written, including where the tests expect otherwise:

- `TokenizeLine` returns right after the first word of a line. So a line without a
  comment yields at most one token, and a `let` line read through the lexer is
  rejected as too short.
- `ClassifyToken` never produces `IDENTIFIER`. The parser examples therefore state
  their expectations over hand-built token lists, as the statement-level behaviour
  is meant.

Modules, one per file:

| module | file |
|---|---|
| `Wrappers` | `wrappers.dfy` (Option and Result) |
| `Text` | `text.dfy` (find, replace-first, join) |
| `Lexer` | `lexer.dfy` |
| `Expressions` | `expression.dfy` |
| `Statements` | `statement.dfy` (statements and their code generation) |
| `Parser` | `parser.dfy` |
| `Compiler` | `compiler.dfy` (program assembly, template splice, vector helpers) |
| `Legacy` | `legacy.dfy` |
| `CodePrinter` | `code_printer.dfy` |

How the source maps to Dafny:

- C++ exceptions become `Result.Err` carrying the source's message.
- Loops that build a string or a list become methods with `for` or `while` loops.
  Each is proved equal to a recursive specification function, and the properties are
  lemmas about that function.
- Byte vectors are sequences of `Byte` (0..255), with `uint8_t` wrap-around written
  out as `% 256`.

## Model

| member | source | states |
|---|---|---|
| `Lexer.ClassifyTokenKinds` | src/compiler/lexer/lexer.cpp:7-39 | each keyword and operator kind is returned exactly for its own word; hex, parameter and comment kinds exactly for words starting with `0x`, `_`, `//`; end-of-file exactly for the empty word; unknown for everything else; identifier, print, arrow and equals are never produced |
| `Lexer.TokenizeLine` | src/compiler/lexer/lexer.cpp:41-70 | the two loops find the first `//` or else the first whitespace-separated word and return the tokens of `LineTokens` |
| `Lexer.Tokenize` | src/compiler/lexer/lexer.cpp:72-82 | the tokens of all lines concatenated in line order, each line numbered by its index |
| `Lexer.CommentSwallowsLine` | src/compiler/lexer/lexer.cpp:46-54 | a line containing `//` yields exactly one comment token: the rest of the line from the first `//`, with the character index of that `//` as its column |
| `Lexer.BlankLineHasNoTokens` | src/compiler/lexer/lexer.cpp:56-69 | a line without `//` yields no token if and only if it is all whitespace |
| `Lexer.FirstWordOnly` | src/compiler/lexer/lexer.cpp:60-67 | a line without `//` that has a non-space character yields exactly one token, the first word classified, at column 0 |
| `Lexer.FirstWordShape` | src/compiler/lexer/lexer.cpp:57-64 | that first word is non-empty, has no whitespace, follows only whitespace and ends at whitespace or at the end of the line |
| `Lexer.AtMostOneToken` | src/compiler/lexer/lexer.cpp:41-70 | every line yields at most one token, and it carries the line's number |
| `Lexer.TokensFollowLines` | src/compiler/lexer/lexer.cpp:72-82 | no more tokens than lines; each token is the token of the line it names; line numbers strictly increase through the list |
| `Lexer.SingleLineProgram` | src/compiler/lexer/lexer.cpp:72-82 | a one-line program is tokenized as line 0 |
| `Lexer.PrintLineTokens` | src/compiler/lexer/lexer.cpp:56-67 | a line `print Hello World` yields only its first word `print`, classified as unknown |
| `Lexer.LetLineTokens` | src/unit_tests/lexer/lexer_tests.cpp:183-190 | a line `let A 0x10` yields only its first token `let` at line 0, column 0 |
| `Lexer.ClassifyExamples` | src/unit_tests/lexer/lexer_tests.cpp:62-71 | `letx`, `abc`, `variable`, `=` and `(` are unknown words |
| `Lexer.PrefixExamples` | src/unit_tests/lexer/lexer_tests.cpp:41-77 | `0` and `0abc` are unknown, `0x` is hex, `_` a parameter, `// comment` a comment, the empty word end-of-file |
| `Expressions.NewHexLiteral` | src/compiler/statement/expression.cpp:10-22 | succeeds if and only if the text has at least three characters and starts with `0x`; otherwise the error names the text |
| `Expressions.HexTailUnchecked` | src/compiler/statement/expression.cpp:14-21 | any non-empty tail after `0x` is accepted, hex digit or not |
| `Expressions.HexLiteralExamples` | src/unit_tests/expression/expression_tests.cpp:9-49 | the valid literals of the tests are kept verbatim; `1234`, `0`, `x` and `0x` are rejected |
| `Expressions.PrefixLength` | src/compiler/statement/expression.cpp:24-29 | the prefix form of a tree has two words per operator plus one |
| `Expressions.ToStringJoinsPrefix` | src/compiler/statement/expression.cpp:24-29 | `ToString` is the prefix-order words of the tree joined by single spaces |
| `Expressions.NestedLeftPrints` | src/unit_tests/expression/expression_tests.cpp:102-113 | `*(+(0x01, 0x02), _a)` prints as `* + 0x01 0x02 _a` |
| `Expressions.CreateExpressionSucceeds` | src/compiler/statement/expression.cpp:31-68 | a token becomes a leaf if and only if it is a hex literal (valid), identifier, parameter or keyword; operators, symbols, comments, end-of-file and unknown tokens are errors |
| `Expressions.CreateExpressionLifts` | src/compiler/statement/expression.cpp:31-68 | a created leaf has the constructor matching the token's kind and prints as the token's text |
| `Expressions.ParsePolish` | src/compiler/statement/expression.cpp:70-100 | an index at or past the end is an error; on success the index strictly advances and stays within the tokens |
| `Expressions.OperatorStep` | src/compiler/statement/expression.cpp:80-95 | an operator token followed by two parsed operands gives the operator node and the index after the right operand |
| `Expressions.ParsePolishSpells` | src/compiler/statement/expression.cpp:70-100 | the consumed tokens are exactly the tree's prefix-order words |
| `Expressions.ParsePolishConsumes` | src/compiler/statement/expression.cpp:70-100 | the parser consumes two tokens per operator plus one, and the tree prints as the consumed texts joined by spaces |
| `Expressions.ParsePolishRoundTrip` | src/compiler/statement/expression.cpp:70-100 | every tree built from parseable leaves, written as tokens in prefix order between any surrounding tokens, parses back to itself, ending just after its tokens |
| `Expressions.ParsePolishIgnoresPositions` | src/compiler/statement/expression.cpp:70-100 | the parse depends only on the kinds and texts of tokens, not their line and column |
| `Expressions.NestedLeftExample` | src/unit_tests/expression/expression_tests.cpp:276-288 | the tokens `* + 0x01 0x02 _a` parse to the nested-left tree with index 5 |
| `Expressions.EndOfTokensExamples` | src/unit_tests/expression/expression_tests.cpp:355-365 | an empty list, an index out of bounds and an operator missing an operand are errors |
| `Parser.CommentText` | src/compiler/parser/parser.cpp:135-142 | a leading `//` is removed from the comment text, and other text is kept |
| `Parser.ParseLetStatement` | src/compiler/parser/parser.cpp:24-44 | the method fails when fewer than three tokens remain from `index` or the next is not an identifier, and otherwise returns the `let` of that name and the expression parsed after it (`LetAt`) |
| `Parser.ParseDefStatement` | src/compiler/parser/parser.cpp:47-89 | the method fails on too few tokens or without a name, collects parameters up to the arrow (failing at any other token), requires the arrow, and parses the body after it (`DefAt`) |
| `Parser.ParseMainStatement` | src/compiler/parser/parser.cpp:92-123 | the method fails without a name token, then collects identifier arguments until the end or an end-of-file token, failing at any other token (`MainAt`) |
| `Parser.ParseLine` | src/compiler/parser/parser.cpp:126-160 | the method lexes the line; no token gives no statement, a comment token a comment, `let`/`def`/`main` their parsers, and `print` or any other token an error (`LineStatement`) |
| `Parser.Parse` | src/compiler/parser/parser.cpp:162-177 | the method skips empty lines and lines without statements, stops at the first line that fails, and otherwise collects each line's statement in order (`Parsed`) |
| `Parser.ErrorAborts` | src/compiler/parser/parser.cpp:162-177 | the first failing line decides the result of the whole parse |
| `Parser.ParsedConcat` | src/compiler/parser/parser.cpp:162-177 | parsing two blocks of lines is parsing each, with the first error winning and statements concatenated |
| `Parser.AtMostOneStatementPerLine` | src/compiler/parser/parser.cpp:162-177 | a successful parse yields no more statements than lines |
| `Parser.AddLineStep` | src/compiler/parser/parser.cpp:165-173 | one more line keeps the parse going if and only if the line parses, and appends that line's statement, if it has one |
| `Parser.StatementsInLineOrder` | src/compiler/parser/parser.cpp:162-177 | the parse succeeds if and only if every non-empty line parses, and then yields the statement of each line that has one, in line order |
| `Parser.SkipsLinesWithoutTokens` | src/compiler/parser/parser.cpp:130-132 | a line with no tokens adds nothing |
| `Parser.CommentLine` | src/compiler/parser/parser.cpp:135-142 | a line with `//` at its first occurrence becomes a comment of the text after the `//` |
| `Parser.CommentOnly` | src/compiler/parser/parser.cpp:135-142 | `//` followed by any text is the comment of that text |
| `Parser.LetRoundTrip` | src/compiler/parser/parser.cpp:24-44 | `let`, a name and the tokens of a hex or other parseable value read back as that `let` statement |
| `Parser.ParamsFromCollects` | src/compiler/parser/parser.cpp:66-75 | a run of parameter tokens ending at an arrow is collected in order, stopping at the arrow |
| `Parser.DefAtSucceeds` | src/compiler/parser/parser.cpp:47-89 | a name, a parameter run up to the arrow and a parsed body give a `def` of that name, parameters and body |
| `Parser.DefAtRoundTrip` | src/compiler/parser/parser.cpp:47-89 | `def`, a name, any parameters, `=>` and a body in prefix tokens read back as that `def` statement |
| `Parser.DefRoundTrip` | src/compiler/parser/parser.cpp:147-159 | the same through the line dispatch |
| `Parser.ArgsFromCollects` | src/compiler/parser/parser.cpp:110-120 | a run of identifier tokens up to the end or an end-of-file token is collected in order |
| `Parser.MainAtSucceeds` | src/compiler/parser/parser.cpp:92-123 | a name and a collected argument list give a `main` call of that name and those arguments |
| `Parser.MainAtRoundTrip` | src/compiler/parser/parser.cpp:92-123 | `main`, a name and identifier arguments read back as that `main` statement |
| `Parser.MainRoundTrip` | src/compiler/parser/parser.cpp:147-159 | the same through the line dispatch |
| `Parser.LetErrors` | src/compiler/parser/parser.cpp:27-36 | a `let` of fewer than three tokens, or without a name token, fails with the matching message |
| `Parser.DefWithoutArrow` | src/compiler/parser/parser.cpp:50-81 | a `def` without an arrow always fails: with the missing-arrow message if all the rest are parameters, otherwise with the bad-parameter message |
| `Parser.ParamsFromWithoutArrow` | src/compiler/parser/parser.cpp:66-81 | without an arrow the parameter loop runs off the end on parameters, or stops with the bad-parameter error at another token |
| `Parser.MainErrors` | src/compiler/parser/parser.cpp:95-120 | `main` alone, `main` without a name, and an argument that is neither an identifier nor end-of-file each fail with their message |
| `Parser.ArgsFromStopsAt` | src/compiler/parser/parser.cpp:110-120 | the first argument token that is neither an identifier nor end-of-file stops the loop with the bad-argument error |
| `Parser.OtherStatementsFail` | src/compiler/parser/parser.cpp:153-158 | `print` is unsupported, and any other first token is an unknown statement named in the message |
| `Parser.LetLineAsWritten` | src/unit_tests/parser/parser_tests.cpp:31-39 | as the lexer is written, the line `let A 0x10` is rejected as too short |
| `Parser.PrintLineAsWritten` | src/unit_tests/compiler/compiler_tests.cpp:19-24 | through the one-word lexer, the line `print Hello World` of the test is an unknown statement named `print` |
| `Parser.CommentExample` | src/unit_tests/parser/parser_tests.cpp:12-18 | `// This is a comment` is a comment of ` This is a comment` |
| `Parser.CommentCodeExample` | src/compiler/parser/parser.cpp:13-21 | that comment generates `//  This is a comment` and a newline |
| `Parser.EmptyLinesExample` | src/unit_tests/parser/parser_tests.cpp:20-25 | two empty lines around a comment give the one comment statement |
| `Parser.ParseLetExample` | src/unit_tests/parser/parser_tests.cpp:31-39 | `let A 0x10` as tokens is the `let` of `A` to `0x10` |
| `Parser.ParseDefExample` | src/unit_tests/parser/parser_tests.cpp:81-91 | `def double _a => * 0x10 _a` as tokens is that `def` |
| `Parser.ParseDefNoParametersExample` | src/unit_tests/parser/parser_tests.cpp:118-128 | `def get_value => 0x42` as tokens is a `def` with no parameters |
| `Parser.ParseMainExample` | src/unit_tests/parser/parser_tests.cpp:152-161 | `main compute A B C` as tokens is that call |
| `Parser.ParseDefMissingArrowExample` | src/unit_tests/parser/parser_tests.cpp:130-135 | `def double _a 0x10` fails |
| `Statements.HelperName` | src/compiler/compiler/compiler.cpp:38-72 | the three operators, and only they, have a byte-vector helper |
| `Statements.Lower` | src/unit_tests/statement/statement_tests.cpp:55-121 | an expression lowers to C++ if and only if it is lowerable; a hex literal becomes a brace list, and parameters and identifiers keep their names |
| `Statements.LowerOperator` | src/unit_tests/statement/statement_tests.cpp:67-121 | an operator becomes a call of its helper on the lowered operands |
| `Statements.LetCode` | src/unit_tests/statement/statement_tests.cpp:24-37 | a `let` generates a vector declaration if and only if its value is a hex literal |
| `Statements.DefCode` | src/unit_tests/statement/statement_tests.cpp:55-121 | a `def` generates code if and only if its body lowers |
| `Statements.DefCodeShape` | src/unit_tests/statement/statement_tests.cpp:55-121 | that code starts with the vector-returning signature and ends with the return of the lowered body and the closing brace |
| `Statements.ParamListExtends` | src/unit_tests/statement/statement_tests.cpp:105-121 | the parameter list is empty, one declaration, or the previous list, a comma and the next declaration |
| `Statements.PrintCode` | src/compiler/statement/statement.cpp:18-32 | print code exists if and only if there are at least two expressions; otherwise the error is the arity message |
| `Statements.GeneratePrintCode` | src/compiler/statement/statement.cpp:18-32 | the method's loop copying the literal's characters yields `PrintCode` |
| `Statements.PrintCodeLayout` | src/compiler/statement/statement.cpp:23-31 | the code is `std::cout << "`, the second expression's text and `" << std::endl;` with a newline, 30 characters longer than the text |
| `Statements.PrintIgnoresOtherExpressions` | src/compiler/statement/statement.cpp:19-24 | only the second expression matters: the first and any after the second do not change the code |
| `Statements.Code` | src/unit_tests/statement/statement_tests.cpp:24-160 | comments and `main` always generate code; `let`, `def` and `print` succeed exactly under their conditions |
| `Statements.GenerateCode` | src/compiler/statement/statement.cpp:18-32 | the method generates `Code` of each statement |
| `Statements.LetExample` | src/unit_tests/statement/statement_tests.cpp:24-30 | `let A 0x10` generates `std::vector<uint8_t> A = {0x10};` |
| `Statements.LetMultiByteExample` | src/unit_tests/statement/statement_tests.cpp:32-37 | the multi-byte literal is copied verbatim |
| `Statements.LowerMultiplyExample` | src/unit_tests/statement/statement_tests.cpp:67-82 | `* 0x10 _a` lowers to `multiply_vectors({0x10}, _a)` |
| `Statements.LowerAddExample` | src/unit_tests/statement/statement_tests.cpp:84-103 | `+ 0x01 0x02` lowers to `add_vectors({0x01}, {0x02})` |
| `Statements.LowerNestedExample` | src/unit_tests/statement/statement_tests.cpp:84-103 | the nested body lowers to the nested helper calls |
| `Statements.LowerParametersExample` | src/unit_tests/statement/statement_tests.cpp:105-121 | `+ _a _b` lowers to `add_vectors(_a, _b)` |
| `Statements.OneParameter` | src/unit_tests/statement/statement_tests.cpp:55-65 | one parameter is declared as a const vector reference |
| `Statements.IdentitySignature` | src/unit_tests/statement/statement_tests.cpp:55-65 | the signature of `identity _a` |
| `Statements.DoubleSignature` | src/unit_tests/statement/statement_tests.cpp:67-82 | the signature of `double _a` |
| `Statements.CalcSignature` | src/unit_tests/statement/statement_tests.cpp:84-103 | the signature of `calc _a` |
| `Statements.AddSignature` | src/unit_tests/statement/statement_tests.cpp:105-121 | the signature of `add _a _b` separates the declarations with a comma |
| `Statements.GetValueSignature` | src/unit_tests/parser/parser_tests.cpp:118-128 | a function with no parameters has empty parentheses |
| `Statements.DefIdentityExample` | src/unit_tests/statement/statement_tests.cpp:55-65 | the full code of `def identity _a => _a` |
| `Statements.DefMultiplyExample` | src/unit_tests/statement/statement_tests.cpp:67-82 | the full code of `def double _a => * 0x10 _a` |
| `Statements.DefNestedExample` | src/unit_tests/statement/statement_tests.cpp:84-103 | the full code of `def calc _a => * + 0x01 0x02 _a` |
| `Statements.DefTwoParametersExample` | src/unit_tests/statement/statement_tests.cpp:105-121 | the full code of `def add _a _b => + _a _b` |
| `Statements.DefNoParametersExample` | src/unit_tests/parser/parser_tests.cpp:118-128 | the full code of `def get_value => 0x42` |
| `Statements.MainOneArgumentExample` | src/unit_tests/statement/statement_tests.cpp:136-143 | `main double A` calls and prints `double(A)` |
| `Statements.MainThreeArgumentsExample` | src/unit_tests/statement/statement_tests.cpp:145-152 | the arguments are separated by comma and space |
| `Statements.MainNoArgumentsExample` | src/unit_tests/statement/statement_tests.cpp:154-161 | a call with no arguments has empty parentheses |
| `Statements.CompleteProgramExample` | src/unit_tests/statement/statement_tests.cpp:206-233 | the three statements' code concatenated is the program of the test |
| `Compiler.GenerateProgramCode` | src/compiler/compiler/compiler.cpp:145-159 | the method's loop gives the definitions' code, the split marker, then the `main` code |
| `Compiler.RegionsPartition` | src/compiler/compiler/compiler.cpp:145-159 | assembly succeeds if and only if every statement generates code; the first region is the code of the non-`main` statements in order, and the second that of the `main` statements in order |
| `Compiler.RegionsErrorPersists` | src/compiler/compiler/compiler.cpp:149-156 | the first statement whose code fails decides the result |
| `Compiler.ConcatenatedOk` | src/compiler/compiler/compiler.cpp:149-156 | concatenating the statements' code succeeds if and only if each one's does |
| `Compiler.AssembledProgramExample` | src/compiler/compiler/compiler.cpp:145-159 | `let A 0x10` and `main double A` assemble into the declaration, the split marker and the call |
| `Compiler.SplitProgramCode` | src/compiler/compiler/compiler.cpp:120-128 | the code splits at the first `{boyo_split_point}`, dropping its 18 characters; without the marker all of it is global |
| `Compiler.SplitRoundTrip` | src/compiler/compiler/compiler.cpp:120-128 | splitting what assembly joined returns both regions when the global one has no marker |
| `Compiler.SubstituteGeneratedCode` | src/compiler/compiler/compiler.cpp:111-143 | the method replaces the first start marker by the global code, then the first end marker of the result by the main code |
| `Compiler.SpliceIntoTemplate` | src/compiler/compiler/compiler.cpp:111-143 | on a template with a start marker then an end marker, global code takes the first's place and main code the second's, and the rest of the template is kept |
| `Compiler.AllGlobal` | src/compiler/compiler/compiler.cpp:120-128 | without a split marker the whole generated code is global and the entry code is empty |
| `Compiler.ReplaceBothMarkers` | src/compiler/compiler/compiler.cpp:130-140 | on a template with a start marker before an end marker, the two replacements put their codes in the markers' places and keep the text around them |
| `Compiler.SpliceWithoutSplit` | src/compiler/compiler/compiler.cpp:120-140 | generated code without a split marker takes the start marker's place, and the end marker is replaced by nothing, the rest of the template being kept |
| `Compiler.SubstitutionExample` | src/unit_tests/compiler/compiler_tests.cpp:26-44 | the test's template and one-line code give the printed line in place of the start marker, and the indentation left before the removed end marker |
| `Compiler.NoMarkersNoChange` | src/compiler/compiler/compiler.cpp:131-140 | a template without markers is returned unchanged |
| `Compiler.MarkersDoNotOverlap` | src/compiler/compiler/compiler.cpp:20-21 | none of the three markers can start again inside itself, so the first occurrence after marker-free text is the marker |
| `Compiler.CombineVectors` | src/compiler/compiler/compiler.cpp:38-72 | the shared loop yields `Combined` |
| `Compiler.AddVectors` | src/compiler/compiler/compiler.cpp:38-48 | one byte per position of the longer vector, the sum modulo 256, a missing byte taken as 0 |
| `Compiler.SubtractVectors` | src/compiler/compiler/compiler.cpp:50-60 | the same with the difference modulo 256 |
| `Compiler.MultiplyVectors` | src/compiler/compiler/compiler.cpp:62-72 | the same with the product modulo 256 |
| `Compiler.SubtractUndoesAdd` | src/compiler/compiler/compiler.cpp:38-60 | subtracting `b` after adding it gives back `a`, zero-padded to the length of `b` |
| `Compiler.Commutes` | src/compiler/compiler/compiler.cpp:38-72 | addition and multiplication do not depend on operand order |
| `Compiler.EmptyOperand` | src/compiler/compiler/compiler.cpp:38-72 | an empty second operand leaves `a` unchanged under addition and subtraction, and zeroes it under multiplication |
| `Compiler.WrapAroundExamples` | src/compiler/compiler/compiler.cpp:38-72 | `0xff + 0x01` wraps to `0x00`, `0x00 - 0x01` to `0xff`, and a missing byte multiplies to 0 |
| `Text.IndexOf` | src/compiler/compiler/compiler.cpp:120 | `find`: none exactly when the pattern does not occur, otherwise its first position |
| `Text.ReplaceFirst` | src/compiler/compiler/compiler.cpp:131-134 | `find` then `replace`: without the pattern the text is kept, otherwise its first occurrence is replaced |
| `Legacy.Parse` | src/compiler/parser.cpp:23-47 | the method skips empty lines, makes a `//` line a comment and a `print` line a print of the bytes after `print`, and stops with an error at any other line (`Parsed`) |
| `Legacy.ErrorAborts` | src/compiler/parser.cpp:23-47 | the first invalid line decides the result |
| `Legacy.OneStatementPerLine` | src/compiler/parser.cpp:27-45 | the parse succeeds if and only if every non-empty line is valid, and then the statements are those of the non-empty lines, in order |
| `Legacy.CommentBeforePrint` | src/compiler/parser.cpp:31-33 | the comment test comes first: `//print…` is a comment |
| `Legacy.PrintKeepsSeparator` | src/compiler/parser.cpp:33-35 | the payload of `print Hello World` is ` Hello World`, leading space kept |
| `Legacy.CharsOfBytes` | src/compiler/parser.cpp:38-40 | characters below 256 survive the cast to bytes and back |
| `Legacy.GenerateCode` | src/compiler/statement.cpp:15-22 | the method gives a comment its `// ` prefix and newline, and a print its `std::cout` line with the bytes copied as characters (`Code`) |
| `Legacy.PrintCodeLayout` | src/compiler/statement.cpp:15-22 | the print code is the fixed prefix, each byte as a character, and the fixed suffix ending in a newline |
| `Legacy.PrintLineCode` | src/compiler/parser.cpp:33-41 | a `print` line of characters below 256 parses to one print whose code prints the payload verbatim |
| `Legacy.GenerateProgramCode` | src/compiler/compiler.cpp:75-82 | the method concatenates the statements' code in order (`ProgramCode`) |
| `Legacy.ProgramCodeOne` | src/compiler/compiler.cpp:75-82 | the program code of one statement is its code |
| `Legacy.ProgramCodeConcat` | src/compiler/compiler.cpp:75-82 | program code distributes over concatenation of statement lists |
| `Legacy.SubstituteGeneratedCode` | src/compiler/compiler.cpp:56-73 | the method replaces the first start marker, then deletes the first end marker of the result |
| `Legacy.SpliceIntoTemplate` | src/compiler/compiler.cpp:56-73 | the code takes the start marker's place, the end marker disappears, and the text around them is kept |
| `Legacy.ReplaceStart` | src/compiler/compiler.cpp:61-64 | the first start marker after marker-free text is replaced by the code |
| `Legacy.DeleteEnd` | src/compiler/compiler.cpp:67-70 | the first end marker after marker-free text is deleted |
| `Legacy.MarkersDoNotOverlap` | src/compiler/compiler.cpp:14-15 | neither marker can start again inside itself |
| `Legacy.NoMarkersNoChange` | src/compiler/compiler.cpp:56-73 | a template without markers is returned unchanged |
| `Legacy.SubstitutionExample` | src/compiler/compiler.cpp:56-73 | the legacy splice gives the same text for the template and code of the substitution test: the code in place of the start marker, the end marker deleted |
| `CodePrinter.ShellEscape` | src/compiler/utils/code_printer.cpp:21-36 | the result is quoted at both ends, three characters longer per input quote, and the shell reads it back as the input |
| `CodePrinter.EscapeBodyConcat` | src/compiler/utils/code_printer.cpp:26-32 | escaping works character by character over concatenation |
| `CodePrinter.EscapeBodyLength` | src/compiler/utils/code_printer.cpp:26-32 | each quote grows by three characters, and every other character is copied |
| `CodePrinter.NoQuotesUnchanged` | src/compiler/utils/code_printer.cpp:26-32 | the escape leaves the text unchanged if and only if it has no quote |
| `CodePrinter.EscapePositions` | src/compiler/utils/code_printer.cpp:26-32 | each input character lands after the escapes of those before it: a quote as `'\''`, any other character copied |
| `CodePrinter.ShellWordRoundTrip` | src/compiler/utils/code_printer.cpp:21-36 | under POSIX quote removal the escaped word is exactly the original string |
| `CodePrinter.EscapeInjective` | src/compiler/utils/code_printer.cpp:21-36 | distinct strings have distinct escapes |
| `CodePrinter.EscapeExamples` | src/compiler/utils/code_printer.cpp:26-32 | `abc` is unchanged, and the quote of `it's` becomes `'\''` |

## Left out

- `Compiler::compile` (src/compiler/compiler/compiler.cpp:170-243 and src/compiler/compiler.cpp:91-126) is left out: file I/O, the external C++ compiler and process control are outside a pure model.
- The copy and move members (src/compiler/compiler/compiler.cpp:84-108) are left out: they have no behaviour beyond ownership.
- src/main.cpp and the two demo programs (code_printer_demo.cpp, pipeline_demo.cpp) are left out: they are command-line drivers.
- `CodePrinter` methods other than `ShellEscape` are left out: they print and call external formatters.
- The template text of src/compiler/compiler/compiler.cpp is left out: it is used only as a parameter of the splice.
- `Let`, `Def` and `Main` code generation is not present as source code. These choices come from the expected strings of the statement tests:
  - a `let` of a non-hex value is an error;
  - an operator other than `+`, `-` or `*` is an error;
  - a keyword leaf in a body is an error;
  - `-` lowers to `subtract_vectors`.
- Statements.LetCode: the error message for a non-hex value is a modelled choice, for that reason.
- Statements.Lower: the error messages for an unknown operator and a keyword leaf are modelled choices, for that reason.
- Parser.ParseLetStatement: the C++ `size_t &index` out-parameter is not returned, since each statement is parsed from a whole line's tokens.
- Parser.ParseDefStatement: the C++ `size_t &index` out-parameter is not returned, since each statement is parsed from a whole line's tokens.
- Parser.ParseMainStatement: the C++ `size_t &index` out-parameter is not returned, since each statement is parsed from a whole line's tokens.
- Tests that assume a lexer which emits every word of a line, or an `IDENTIFIER` kind, are stated over token lists rather than through the lexer. These are the success cases of src/unit_tests/parser/parser_tests.cpp.
- src/unit_tests/compiler/compiler_tests.cpp:19-24 expects a print line's code. The current parser rejects the line as an unknown statement, because `print` is classified as unknown, and it would reject a print keyword as unsupported too. `Parser.PrintLineAsWritten` states what the code does; the expected code is not modelled.
- src/unit_tests/compiler/compiler_tests.cpp:46-50 only runs `compile`, which is left out.
- src/unit_tests/statement_tests.cpp:17 expects the legacy print code without its final newline. The model keeps the newline the code writes.
- Lexer.LineTokens: a Dafny character stands for one byte of the C++ `std::string`, so a comment token's column equals the C++ byte offset of `find("//")` only when every character before the `//` is a single byte; multi-byte UTF-8 text is not modelled.
- Legacy.CharByte: a character's byte is its code modulo 256; multi-byte encodings of the C++ `std::string` are not modelled.
- CodePrinter.ShellEscape: `reserve` is not modelled, since it changes capacity only.
- CodePrinter.ShellWord: only the single-quote and backslash rules of quote removal are modelled, not field splitting or expansions.
- `Compiler::compile`'s use of ShellEscape when building the compiler command line is left out along with `compile` itself.
