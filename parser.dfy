/** The statement parser of src/compiler/parser/parser.cpp: each line is tokenized on
    its own, then dispatched on its first token. The grammar of `let`, `def` and `main`
    is stated over token lists; `Parse` feeds it whatever the lexer produces. */
module Parser {
  import opened Wrappers
  import opened Text
  import opened Lexer
  import opened Expressions
  import Statements

  // ----- Error messages -----

  const LetTooShort := "let statement requires identifier and value"
  const LetNeedsName := "let statement requires identifier after 'let'"
  const DefBadParameter := "Expected parameter or '=>' in def statement"
  const DefTooShort := "def statement requires name, parameters, and body"
  const DefNeedsName := "def statement requires function name after 'def'"
  const DefNeedsArrow := "def statement requires '=>' before body"
  const MainBadArgument := "Expected identifier in main statement arguments"
  const MainTooShort := "main statement requires function name"
  const MainNeedsName := "main statement requires function name after 'main'"
  const PrintUnsupported := "print statement not yet implemented in new parser"
  const UnknownStatement := "Unknown statement type: "

  type Statement = Statements.Statement

  // ----- The grammar, as functions of the token list -----

  /** The text of a `CommentStatement`: a leading "//" is removed. */
  function CommentText(text: string): (r: string)
    ensures StartsWith(text, "//") ==> text == "//" + r
    ensures !StartsWith(text, "//") ==> r == text
  {
    if StartsWith(text, "//") then text[2..] else text
  }

  /** `ParseLetStatement`: let <identifier> <expression>, with the keyword at `index`;
      tokens after the expression are not examined. */
  function LetAt(tokens: seq<Token>, index: nat): Result<Statement> {
    if index + 2 >= |tokens| then Err(LetTooShort)
    else if tokens[index + 1].kind != Identifier then Err(LetNeedsName)
    else
      var value :- ParsePolish(tokens, index + 2);
      Ok(Statements.Let(tokens[index + 1].text, value.0))
  }

  /** The parameter loop of `ParseDefStatement`: from index `i`, parameter tokens are
      appended to `params` until an arrow or the end of the tokens; the result also
      gives the index where the loop stopped. */
  function ParamsFrom(tokens: seq<Token>, i: nat, params: seq<string>): Result<(seq<string>, nat)>
    decreases |tokens| - i
  {
    if i >= |tokens| || tokens[i].kind == Arrow then Ok((params, i))
    else if tokens[i].kind == ParamIdentifier then ParamsFrom(tokens, i + 1, params + [tokens[i].text])
    else Err(DefBadParameter)
  }

  /** `ParseDefStatement`: def <identifier> <param>* => <expression>. */
  function DefAt(tokens: seq<Token>, index: nat): Result<Statement> {
    if index + 3 >= |tokens| then Err(DefTooShort)
    else if tokens[index + 1].kind != Identifier then Err(DefNeedsName)
    else
      var collected :- ParamsFrom(tokens, index + 2, []);
      var (params, arrow) := collected;
      if arrow >= |tokens| || tokens[arrow].kind != Arrow then Err(DefNeedsArrow)
      else
        var body :- ParsePolish(tokens, arrow + 1);
        Ok(Statements.Def(tokens[index + 1].text, params, body.0))
  }

  /** The argument loop of `ParseMainStatement`: identifiers are appended to `args`
      until an END_OF_FILE token or the end of the tokens. */
  function ArgsFrom(tokens: seq<Token>, i: nat, args: seq<string>): Result<seq<string>>
    decreases |tokens| - i
  {
    if i >= |tokens| || tokens[i].kind == EndOfFile then Ok(args)
    else if tokens[i].kind == Identifier then ArgsFrom(tokens, i + 1, args + [tokens[i].text])
    else Err(MainBadArgument)
  }

  /** `ParseMainStatement`: main <identifier> <identifier>*. */
  function MainAt(tokens: seq<Token>, index: nat): Result<Statement> {
    if index + 1 >= |tokens| then Err(MainTooShort)
    else if tokens[index + 1].kind != Identifier then Err(MainNeedsName)
    else
      var args :- ArgsFrom(tokens, index + 2, []);
      Ok(Statements.Main(tokens[index + 1].text, args))
  }

  /** The dispatch of `ParseLine` on the tokens of the line: no tokens give no
      statement (`nullptr`). */
  function StatementOf(tokens: seq<Token>): Result<Option<Statement>> {
    if tokens == [] then Ok(None)
    else if tokens[0].kind == Lexer.Comment then Ok(Some(Statements.Comment(CommentText(tokens[0].text))))
    else if tokens[0].kind == KeywordLet then
      var s :- LetAt(tokens, 0);
      Ok(Some(s))
    else if tokens[0].kind == KeywordDef then
      var s :- DefAt(tokens, 0);
      Ok(Some(s))
    else if tokens[0].kind == KeywordMain then
      var s :- MainAt(tokens, 0);
      Ok(Some(s))
    else if tokens[0].kind == KeywordPrint then Err(PrintUnsupported)
    else Err(UnknownStatement + tokens[0].text)
  }

  /** `ParseLine`: the line is tokenized as a one-line program, then dispatched. */
  function LineStatement(line: string): Result<Option<Statement>> {
    StatementOf(AllTokens([line]))
  }

  /** One step of `Parser::Parse`: an empty line, or a line without tokens, adds
      nothing; any other line adds its statement or stops the parse with its error. */
  function AddLine(before: seq<Statement>, line: string): Result<seq<Statement>> {
    if line == [] then Ok(before)
    else
      var s :- LineStatement(line);
      match s
      case None => Ok(before)
      case Some(st) => Ok(before + [st])
  }

  /** `Parser::Parse`: the lines in order, each through `AddLine`; the first error is
      the result. */
  function Parsed(lines: seq<string>): Result<seq<Statement>>
    decreases |lines|
  {
    if lines == [] then Ok([])
    else
      var before :- Parsed(lines[..|lines| - 1]);
      AddLine(before, lines[|lines| - 1])
  }

  // ----- The imperative parser -----

  method ParseLetStatement(tokens: seq<Token>, index: nat) returns (r: Result<Statement>)
    ensures r == LetAt(tokens, index)
  {
    if index + 2 >= |tokens| {
      return Err(LetTooShort);
    }
    var i := index + 1;
    if tokens[i].kind != Identifier {
      return Err(LetNeedsName);
    }
    var varName := tokens[i].text;
    i := i + 1;
    var value := ParsePolish(tokens, i);
    if value.Err? {
      return Err(value.message);
    }
    return Ok(Statements.Let(varName, value.value.0));
  }

  method ParseDefStatement(tokens: seq<Token>, index: nat) returns (r: Result<Statement>)
    ensures r == DefAt(tokens, index)
  {
    if index + 3 >= |tokens| {
      return Err(DefTooShort);
    }
    var i := index + 1;
    if tokens[i].kind != Identifier {
      return Err(DefNeedsName);
    }
    var funcName := tokens[i].text;
    i := i + 1;
    var params: seq<string> := [];
    while i < |tokens| && tokens[i].kind != Arrow
      invariant index + 2 <= i <= |tokens|
      invariant ParamsFrom(tokens, index + 2, []) == ParamsFrom(tokens, i, params)
      decreases |tokens| - i
    {
      if tokens[i].kind == ParamIdentifier {
        params := params + [tokens[i].text];
        i := i + 1;
      } else {
        return Err(DefBadParameter);
      }
    }
    if i >= |tokens| || tokens[i].kind != Arrow {
      return Err(DefNeedsArrow);
    }
    i := i + 1;
    var body := ParsePolish(tokens, i);
    if body.Err? {
      return Err(body.message);
    }
    return Ok(Statements.Def(funcName, params, body.value.0));
  }

  method ParseMainStatement(tokens: seq<Token>, index: nat) returns (r: Result<Statement>)
    ensures r == MainAt(tokens, index)
  {
    if index + 1 >= |tokens| {
      return Err(MainTooShort);
    }
    var i := index + 1;
    if tokens[i].kind != Identifier {
      return Err(MainNeedsName);
    }
    var funcName := tokens[i].text;
    i := i + 1;
    var args: seq<string> := [];
    while i < |tokens| && tokens[i].kind != EndOfFile
      invariant index + 2 <= i <= |tokens|
      invariant ArgsFrom(tokens, index + 2, []) == ArgsFrom(tokens, i, args)
      decreases |tokens| - i
    {
      if tokens[i].kind == Identifier {
        args := args + [tokens[i].text];
        i := i + 1;
      } else {
        return Err(MainBadArgument);
      }
    }
    return Ok(Statements.Main(funcName, args));
  }

  method ParseLine(line: string) returns (r: Result<Option<Statement>>)
    ensures r == LineStatement(line)
  {
    var tokens := Tokenize([line]);
    if |tokens| == 0 {
      return Ok(None);
    }
    if tokens[0].kind == Lexer.Comment {
      var text := tokens[0].text;
      if StartsWith(text, "//") {
        text := text[2..];
      }
      return Ok(Some(Statements.Comment(text)));
    }
    var s: Statement;
    if tokens[0].kind == KeywordLet {
      s :- ParseLetStatement(tokens, 0);
    } else if tokens[0].kind == KeywordDef {
      s :- ParseDefStatement(tokens, 0);
    } else if tokens[0].kind == KeywordMain {
      s :- ParseMainStatement(tokens, 0);
    } else if tokens[0].kind == KeywordPrint {
      return Err(PrintUnsupported);
    } else {
      return Err(UnknownStatement + tokens[0].text);
    }
    return Ok(Some(s));
  }

  method Parse(lines: seq<string>) returns (r: Result<seq<Statement>>)
    ensures r == Parsed(lines)
  {
    var statements: seq<Statement> := [];
    for n := 0 to |lines|
      invariant Parsed(lines[..n]) == Ok(statements)
    {
      assert lines[..n + 1][..n] == lines[..n];
      if lines[n] == [] {
        continue;
      }
      var s := ParseLine(lines[n]);
      if s.Err? {
        ErrorAborts(lines, n + 1);
        return Err(s.message);
      }
      if s.value.Some? {
        statements := statements + [s.value.value];
      }
    }
    assert lines[..|lines|] == lines;
    return Ok(statements);
  }

  // ----- Parse over a list of lines -----

  /** Once a prefix of the lines fails, the whole parse fails with that error: no
      partial statement list is returned. */
  lemma {:induction false} ErrorAborts(lines: seq<string>, n: nat)
    requires n <= |lines| && Parsed(lines[..n]).Err?
    ensures Parsed(lines) == Parsed(lines[..n])
    decreases |lines|
  {
    if n < |lines| {
      var init := lines[..|lines| - 1];
      assert init[..n] == lines[..n];
      ErrorAborts(init, n);
    } else {
      assert lines[..n] == lines;
    }
  }

  /** What a line adds does not depend on the statements before it. */
  lemma {:induction false} AddLineShift(x: seq<Statement>, y: seq<Statement>, line: string)
    ensures AddLine(y, line).Err? ==> AddLine(x + y, line) == AddLine(y, line)
    ensures AddLine(y, line).Ok? ==> AddLine(x + y, line) == Ok(x + AddLine(y, line).value)
  {
    if line != [] && LineStatement(line).Ok? && LineStatement(line).value.Some? {
      assert x + y + [LineStatement(line).value.value] == x + (y + [LineStatement(line).value.value]);
    }
  }

  /** Parsing two blocks of lines one after the other: the statements of the first
      come before those of the second, and the first error wins. */
  lemma {:induction false} ParsedConcat(a: seq<string>, b: seq<string>)
    ensures Parsed(a).Err? ==> Parsed(a + b) == Parsed(a)
    ensures Parsed(a).Ok? && Parsed(b).Err? ==> Parsed(a + b) == Parsed(b)
    ensures Parsed(a).Ok? && Parsed(b).Ok? ==> Parsed(a + b) == Ok(Parsed(a).value + Parsed(b).value)
    decreases |b|
  {
    if b == [] {
      assert a + b == a;
      assert Parsed(a).Ok? ==> Parsed(a).value + [] == Parsed(a).value;
    } else {
      var b' := b[..|b| - 1];
      var line := b[|b| - 1];
      assert (a + b)[..|a + b| - 1] == a + b';
      assert (a + b)[|a + b| - 1] == line;
      ParsedConcat(a, b');
      if Parsed(a).Ok? && Parsed(b').Ok? {
        AddLineShift(Parsed(a).value, Parsed(b').value, line);
      }
    }
  }

  /** Each line contributes at most one statement. */
  lemma {:induction false} AtMostOneStatementPerLine(lines: seq<string>)
    requires Parsed(lines).Ok?
    ensures |Parsed(lines).value| <= |lines|
    decreases |lines|
  {
    if lines != [] {
      AtMostOneStatementPerLine(lines[..|lines| - 1]);
    }
  }

  /** A line parses when it is empty or its statement, if any, is read without error. */
  predicate LineParses(line: string) {
    line != [] ==> LineStatement(line).Ok?
  }

  /** What one line contributes: its statement, or nothing for an empty line, a line
      without tokens or a failing line. */
  function LineStatements(line: string): seq<Statement> {
    if line != [] && LineStatement(line).Ok? && LineStatement(line).value.Some?
    then [LineStatement(line).value.value] else []
  }

  /** The statements of the lines, in line order. */
  function Present(lines: seq<string>): seq<Statement>
    decreases |lines|
  {
    if lines == [] then [] else Present(lines[..|lines| - 1]) + LineStatements(lines[|lines| - 1])
  }

  lemma {:induction false} AddLineStep(before: seq<Statement>, line: string)
    ensures AddLine(before, line).Ok? <==> LineParses(line)
    ensures AddLine(before, line).Ok? ==> AddLine(before, line).value == before + LineStatements(line)
  {
    if line == [] {
      assert before + [] == before;
    } else if LineStatement(line).Ok? && LineStatement(line).value.None? {
      assert before + [] == before;
    }
  }

  /** The parse succeeds exactly when every line parses, and then yields the
      statement of each line that has one, in line order. */
  lemma {:induction false} StatementsInLineOrder(lines: seq<string>)
    ensures Parsed(lines).Ok? <==> forall k :: 0 <= k < |lines| ==> LineParses(lines[k])
    ensures Parsed(lines).Ok? ==> Parsed(lines).value == Present(lines)
    decreases |lines|
  {
    if lines != [] {
      var init, last := lines[..|lines| - 1], lines[|lines| - 1];
      StatementsInLineOrder(init);
      ParsedSnoc(init, last);
      assert init + [last] == lines;
      assert forall k :: 0 <= k < |init| ==> init[k] == lines[k];
      if Parsed(init).Ok? {
        AddLineStep(Parsed(init).value, last);
      }
    }
  }

  /** A line that is empty, or that has no tokens, adds nothing. */
  lemma {:induction false} SkipsLinesWithoutTokens(lines: seq<string>, line: string)
    requires AllTokens([line]) == []
    ensures Parsed(lines + [line]) == Parsed(lines)
  {
    assert (lines + [line])[..|lines|] == lines;
  }

  /** A line holding "//" anywhere is a comment holding the text after the first
      "//", whatever precedes it. */
  lemma {:induction false} CommentLine(line: string, p: nat)
    requires FirstAt(line, "//", p)
    ensures LineStatement(line) == Ok(Some(Statements.Comment(line[p + 2..])))
  {
    SingleLineProgram(line);
    CommentSwallowsLine(line, 0, p);
    assert line[p..][2..] == line[p + 2..];
  }

  /** A line starting with "//" is a comment holding the rest of the line. */
  lemma {:induction false} CommentOnly(text: string)
    ensures LineStatement("//" + text) == Ok(Some(Statements.Comment(text)))
  {
    var line := "//" + text;
    assert line[..2] == "//";
    assert FirstAt(line, "//", 0);
    CommentLine(line, 0);
    assert line[2..] == text;
  }

  /** One more line: the parse so far, then `AddLine`. */
  lemma {:induction false} ParsedSnoc(lines: seq<string>, line: string)
    ensures Parsed(lines).Err? ==> Parsed(lines + [line]) == Parsed(lines)
    ensures Parsed(lines).Ok? ==> Parsed(lines + [line]) == AddLine(Parsed(lines).value, line)
  {
    assert (lines + [line])[..|lines|] == lines;
  }

  // ----- The grammar: round trips over hand-built token lists -----

  function ParamTokens(params: seq<string>): (r: seq<Token>)
    ensures |r| == |params|
    ensures forall k :: 0 <= k < |params| ==> r[k] == Token(ParamIdentifier, params[k], 0, 0)
  {
    if params == [] then [] else [Token(ParamIdentifier, params[0], 0, 0)] + ParamTokens(params[1..])
  }

  function IdentifierTokens(names: seq<string>): (r: seq<Token>)
    ensures |r| == |names|
    ensures forall k :: 0 <= k < |names| ==> r[k] == Token(Identifier, names[k], 0, 0)
  {
    if names == [] then [] else [Token(Identifier, names[0], 0, 0)] + IdentifierTokens(names[1..])
  }

  lemma {:induction false} EmitNotEmpty(e: Expr)
    ensures |Emit(e)| >= 1
  {
  }

  /** The tokens of a let statement parse back to it; what follows the value is ignored. */
  lemma {:induction false} LetRoundTrip(name: string, value: Expr, rest: seq<Token>)
    requires WellFormed(value)
    ensures StatementOf([Token(KeywordLet, "let", 0, 0), Token(Identifier, name, 0, 0)] + Emit(value) + rest)
         == Ok(Some(Statements.Let(name, value)))
  {
    var head := [Token(KeywordLet, "let", 0, 0), Token(Identifier, name, 0, 0)];
    EmitNotEmpty(value);
    ParsePolishRoundTrip(value, head, rest);
  }

  /** From index `i` on, parameter tokens up to an arrow are collected in order. */
  lemma {:induction false} ParamsFromCollects(tokens: seq<Token>, i: nat, acc: seq<string>, params: seq<string>)
    requires TokensAt(tokens, i, ParamIdentifier, params)
    requires i + |params| < |tokens| && tokens[i + |params|].kind == Arrow
    ensures ParamsFrom(tokens, i, acc) == Ok((acc + params, i + |params|))
    decreases params
  {
    if params == [] {
      assert acc + params == acc;
    } else {
      assert tokens[i + 0] == Token(ParamIdentifier, params[0], 0, 0);
      forall k | 0 <= k < |params[1..]| ensures tokens[i + 1 + k] == Token(ParamIdentifier, params[1..][k], 0, 0) {
        assert tokens[i + (k + 1)] == Token(ParamIdentifier, params[k + 1], 0, 0);
      }
      assert TokensAt(tokens, i + 1, ParamIdentifier, params[1..]);
      ParamsFromCollects(tokens, i + 1, acc + [params[0]], params[1..]);
      assert acc + [params[0]] + params[1..] == acc + params;
    }
  }

  /** `tokens` holds, from `i` on, one token of `kind` per text, at line and column 0. */
  predicate TokensAt(tokens: seq<Token>, i: nat, kind: TokenKind, texts: seq<string>) {
    i + |texts| <= |tokens| &&
    forall k :: 0 <= k < |texts| ==> tokens[i + k] == Token(kind, texts[k], 0, 0)
  }

  function DefTokens(name: string, params: seq<string>, body: Expr): seq<Token> {
    [Token(KeywordDef, "def", 0, 0), Token(Identifier, name, 0, 0)] + ParamTokens(params) +
    [Token(Arrow, "=>", 0, 0)] + Emit(body)
  }

  /** Where the parts of a def statement sit in its tokens. */
  lemma {:induction false} DefTokensLayout(name: string, params: seq<string>, body: Expr, rest: seq<Token>)
    ensures var tokens := DefTokens(name, params, body) + rest;
      |tokens| > |params| + 3 && tokens[1] == Token(Identifier, name, 0, 0) &&
      TokensAt(tokens, 2, ParamIdentifier, params) &&
      tokens[2 + |params|] == Token(Arrow, "=>", 0, 0)
  {
    var head := [Token(KeywordDef, "def", 0, 0), Token(Identifier, name, 0, 0)];
    var before := head + ParamTokens(params) + [Token(Arrow, "=>", 0, 0)];
    var tokens := before + Emit(body) + rest;
    EmitNotEmpty(body);
    forall k | 0 <= k < |params| ensures tokens[2 + k] == Token(ParamIdentifier, params[k], 0, 0) {
      assert tokens[2 + k] == ParamTokens(params)[k];
    }
  }

  /** The parameter loop stops at the arrow of a def statement's tokens. */
  lemma {:induction false} DefParamsRead(name: string, params: seq<string>, body: Expr, rest: seq<Token>)
    ensures ParamsFrom(DefTokens(name, params, body) + rest, 2, []) == Ok((params, 2 + |params|))
  {
    var tokens := DefTokens(name, params, body) + rest;
    DefTokensLayout(name, params, body, rest);
    ParamsFromCollects(tokens, 2, [], params);
    assert [] + params == params;
  }

  /** The body of a def statement's tokens parses back to the body. */
  lemma {:induction false} DefBodyRead(name: string, params: seq<string>, body: Expr, rest: seq<Token>)
    requires WellFormed(body)
    ensures ParsePolish(DefTokens(name, params, body) + rest, 2 + |params| + 1) ==
            Ok((body, 3 + |params| + |Emit(body)|))
  {
    var before := [Token(KeywordDef, "def", 0, 0), Token(Identifier, name, 0, 0)] +
                  ParamTokens(params) + [Token(Arrow, "=>", 0, 0)];
    assert DefTokens(name, params, body) + rest == before + Emit(body) + rest;
    ParsePolishRoundTrip(body, before, rest);
  }

  lemma {:induction false} DefAtRoundTrip(name: string, params: seq<string>, body: Expr, rest: seq<Token>)
    requires WellFormed(body)
    ensures DefAt(DefTokens(name, params, body) + rest, 0) == Ok(Statements.Def(name, params, body))
  {
    DefTokensLayout(name, params, body, rest);
    DefParamsRead(name, params, body, rest);
    DefBodyRead(name, params, body, rest);
    DefAtSucceeds(DefTokens(name, params, body) + rest, params, 2 + |params|, body, 3 + |params| + |Emit(body)|);
  }

  /** The def grammar accepts a name, collected parameters up to an arrow and a body. */
  lemma {:induction false} DefAtSucceeds(tokens: seq<Token>, params: seq<string>, arrow: nat, body: Expr, next: nat)
    requires 3 < |tokens| && tokens[1].kind == Identifier
    requires ParamsFrom(tokens, 2, []) == Ok((params, arrow))
    requires arrow < |tokens| && tokens[arrow].kind == Arrow
    requires ParsePolish(tokens, arrow + 1) == Ok((body, next))
    ensures DefAt(tokens, 0) == Ok(Statements.Def(tokens[1].text, params, body))
  {
  }

  /** The tokens of a def statement parse back to it. */
  lemma {:induction false} DefRoundTrip(name: string, params: seq<string>, body: Expr, rest: seq<Token>)
    requires WellFormed(body)
    ensures StatementOf(DefTokens(name, params, body) + rest) == Ok(Some(Statements.Def(name, params, body)))
  {
    DefAtRoundTrip(name, params, body, rest);
    assert (DefTokens(name, params, body) + rest)[0].kind == KeywordDef;
  }

  /** Identifier tokens up to an END_OF_FILE token, or the end, are collected in order. */
  lemma {:induction false} ArgsFromCollects(tokens: seq<Token>, i: nat, acc: seq<string>, args: seq<string>)
    requires TokensAt(tokens, i, Identifier, args)
    requires i + |args| == |tokens| || tokens[i + |args|].kind == EndOfFile
    ensures ArgsFrom(tokens, i, acc) == Ok(acc + args)
    decreases args
  {
    if args == [] {
      assert acc + args == acc;
    } else {
      assert tokens[i + 0] == Token(Identifier, args[0], 0, 0);
      forall k | 0 <= k < |args[1..]| ensures tokens[i + 1 + k] == Token(Identifier, args[1..][k], 0, 0) {
        assert tokens[i + (k + 1)] == Token(Identifier, args[k + 1], 0, 0);
      }
      assert TokensAt(tokens, i + 1, Identifier, args[1..]);
      ArgsFromCollects(tokens, i + 1, acc + [args[0]], args[1..]);
      assert acc + [args[0]] + args[1..] == acc + args;
    }
  }

  function MainTokens(name: string, args: seq<string>): seq<Token> {
    [Token(KeywordMain, "main", 0, 0), Token(Identifier, name, 0, 0)] + IdentifierTokens(args)
  }

  /** Where the parts of a main statement sit in its tokens. */
  lemma {:induction false} MainTokensLayout(name: string, args: seq<string>, rest: seq<Token>)
    ensures var tokens := MainTokens(name, args) + rest;
      |tokens| == 2 + |args| + |rest| && tokens[1] == Token(Identifier, name, 0, 0) &&
      TokensAt(tokens, 2, Identifier, args) &&
      (2 + |args| < |tokens| ==> tokens[2 + |args|] == rest[0])
  {
    var tokens := MainTokens(name, args) + rest;
    forall k | 0 <= k < |args| ensures tokens[2 + k] == Token(Identifier, args[k], 0, 0) {
      assert tokens[2 + k] == IdentifierTokens(args)[k];
    }
  }

  /** The argument loop collects the identifiers of a main statement's tokens. */
  lemma {:induction false} MainArgsRead(name: string, args: seq<string>, rest: seq<Token>)
    requires rest == [] || rest[0].kind == EndOfFile
    ensures var tokens := MainTokens(name, args) + rest;
      1 < |tokens| && tokens[1] == Token(Identifier, name, 0, 0) &&
      ArgsFrom(tokens, 2, []) == Ok(args)
  {
    MainTokensLayout(name, args, rest);
    ArgsFromCollects(MainTokens(name, args) + rest, 2, [], args);
    assert [] + args == args;
  }

  /** The main grammar accepts a name followed by collected arguments. */
  lemma {:induction false} MainAtSucceeds(tokens: seq<Token>, args: seq<string>)
    requires 1 < |tokens| && tokens[1].kind == Identifier
    requires ArgsFrom(tokens, 2, []) == Ok(args)
    ensures MainAt(tokens, 0) == Ok(Statements.Main(tokens[1].text, args))
  {
  }

  lemma {:induction false} MainAtRoundTrip(name: string, args: seq<string>, rest: seq<Token>)
    requires rest == [] || rest[0].kind == EndOfFile
    ensures MainAt(MainTokens(name, args) + rest, 0) == Ok(Statements.Main(name, args))
  {
    MainArgsRead(name, args, rest);
    MainAtSucceeds(MainTokens(name, args) + rest, args);
  }

  /** The tokens of a main statement parse back to it; an END_OF_FILE token ends the
      arguments and whatever follows it is ignored. */
  lemma {:induction false} MainRoundTrip(name: string, args: seq<string>, rest: seq<Token>)
    requires rest == [] || rest[0].kind == EndOfFile
    ensures StatementOf(MainTokens(name, args) + rest) == Ok(Some(Statements.Main(name, args)))
  {
    MainAtRoundTrip(name, args, rest);
    assert (MainTokens(name, args) + rest)[0].kind == KeywordMain;
  }

  // ----- The grammar: error cases -----

  /** let with fewer than three tokens, or without an identifier after it, fails. */
  lemma {:induction false} LetErrors(tokens: seq<Token>)
    requires tokens != [] && tokens[0].kind == KeywordLet
    ensures |tokens| < 3 ==> StatementOf(tokens) == Err(LetTooShort)
    ensures |tokens| >= 3 && tokens[1].kind != Identifier ==>
      StatementOf(tokens) == Err(LetNeedsName)
  {
  }

  /** def without an arrow after the name fails, whether a stray token or the end of
      the tokens is met first. */
  lemma {:induction false} DefWithoutArrow(tokens: seq<Token>)
    requires |tokens| >= 4 && tokens[0].kind == KeywordDef && tokens[1].kind == Identifier
    requires forall k :: 2 <= k < |tokens| ==> tokens[k].kind != Arrow
    ensures StatementOf(tokens).Err?
    ensures (forall k :: 2 <= k < |tokens| ==> tokens[k].kind == ParamIdentifier) ==>
      StatementOf(tokens) == Err(DefNeedsArrow)
    ensures (exists k :: 2 <= k < |tokens| && tokens[k].kind != ParamIdentifier) ==>
      StatementOf(tokens) == Err(DefBadParameter)
  {
    ParamsFromWithoutArrow(tokens, 2, []);
  }

  lemma {:induction false} ParamsFromWithoutArrow(tokens: seq<Token>, i: nat, acc: seq<string>)
    requires forall k :: i <= k < |tokens| ==> tokens[k].kind != Arrow
    ensures (forall k :: i <= k < |tokens| ==> tokens[k].kind == ParamIdentifier) ==>
      ParamsFrom(tokens, i, acc).Ok? && ParamsFrom(tokens, i, acc).value.1 >= |tokens|
    ensures (exists k :: i <= k < |tokens| && tokens[k].kind != ParamIdentifier) ==>
      ParamsFrom(tokens, i, acc) == Err(DefBadParameter)
    decreases |tokens| - i
  {
    if i < |tokens| && tokens[i].kind == ParamIdentifier {
      ParamsFromWithoutArrow(tokens, i + 1, acc + [tokens[i].text]);
      if exists k :: i <= k < |tokens| && tokens[k].kind != ParamIdentifier {
        var k :| i <= k < |tokens| && tokens[k].kind != ParamIdentifier;
        assert i + 1 <= k;
      }
    }
  }

  /** main needs a function name; its arguments must all be identifiers. */
  lemma {:induction false} MainErrors(tokens: seq<Token>, k: nat)
    requires tokens != [] && tokens[0].kind == KeywordMain
    ensures |tokens| < 2 ==> StatementOf(tokens) == Err(MainTooShort)
    ensures |tokens| >= 2 && tokens[1].kind != Identifier ==>
      StatementOf(tokens) == Err(MainNeedsName)
    ensures 2 <= k < |tokens| && tokens[1].kind == Identifier &&
            tokens[k].kind != Identifier && tokens[k].kind != EndOfFile &&
            (forall j :: 2 <= j < k ==> tokens[j].kind == Identifier) ==>
      StatementOf(tokens) == Err(MainBadArgument)
  {
    if 2 <= k < |tokens| && tokens[1].kind == Identifier &&
       tokens[k].kind != Identifier && tokens[k].kind != EndOfFile &&
       (forall j :: 2 <= j < k ==> tokens[j].kind == Identifier) {
      ArgsFromStopsAt(tokens, 2, [], k);
    }
  }

  lemma {:induction false} ArgsFromStopsAt(tokens: seq<Token>, i: nat, acc: seq<string>, k: nat)
    requires i <= k < |tokens|
    requires tokens[k].kind != Identifier && tokens[k].kind != EndOfFile
    requires forall j :: i <= j < k ==> tokens[j].kind == Identifier
    ensures ArgsFrom(tokens, i, acc) == Err(MainBadArgument)
    decreases k - i
  {
    if i < k {
      ArgsFromStopsAt(tokens, i + 1, acc + [tokens[i].text], k);
    }
  }

  /** A first token that starts no statement fails: print is not implemented, and
      anything else is reported by its text. */
  lemma {:induction false} OtherStatementsFail(tokens: seq<Token>)
    requires tokens != []
    requires tokens[0].kind !in {Lexer.Comment, KeywordLet, KeywordDef, KeywordMain}
    ensures tokens[0].kind == KeywordPrint ==>
      StatementOf(tokens) == Err(PrintUnsupported)
    ensures tokens[0].kind != KeywordPrint ==>
      StatementOf(tokens) == Err(UnknownStatement + tokens[0].text)
  {
  }

  // ----- Lines as the lexer sees them -----

  /** The lexer keeps only the first word of a line, so the let statement of
      src/unit_tests/parser/parser_tests.cpp:31-39 reaches the parser as the single
      token "let" and fails there. */
  lemma LetLineAsWritten()
    ensures LineStatement("let A 0x10") == Err(LetTooShort)
  {
    LetLineTokens();
  }

  /** The print line of src/unit_tests/compiler/compiler_tests.cpp:19-24 reaches the
      parser as the single unknown token "print", so the line is an unknown statement. */
  lemma PrintLineAsWritten()
    ensures LineStatement("print Hello World") == Err(UnknownStatement + "print")
  {
    PrintLineTokens();
    OtherStatementsFail([Token(Unknown, "print", 0, 0)]);
  }

  /** The line "// This is a comment" parses to a comment that keeps the space after
      the "//". */
  lemma CommentExample()
    ensures LineStatement("//" + " This is a comment") == Ok(Some(Statements.Comment(" This is a comment")))
  {
    CommentOnly(" This is a comment");
  }

  /** The comment of `CommentExample` is printed with two spaces after the "//". */
  lemma CommentCodeExample()
    ensures Statements.Code(Statements.Comment(" This is a comment")) == Ok("//  This is a comment\n")
  {
    var code := Statements.Code(Statements.Comment(" This is a comment"));
    assert "// " + " This is a comment" == "//  This is a comment";
    assert code.value == "//  This is a comment\n";
  }

  /** ["", "// comment", ""] gives exactly one statement. */
  lemma EmptyLinesExample()
    ensures Parsed(["", "//" + " comment", ""]) == Ok([Statements.Comment(" comment")])
  {
    var c := Statements.Comment(" comment");
    var line := "//" + " comment";
    CommentOnly(" comment");
    ParsedSnoc([], "");
    assert [] + [""] == [""];
    ParsedSnoc([""], line);
    assert [""] + [line] == ["", line];
    assert [] + [c] == [c];
    ParsedSnoc(["", line], "");
    assert ["", line] + [""] == ["", line, ""];
  }

  // ----- The parser tests over token lists a word-by-word lexer would give -----

  lemma ParseLetExample()
    ensures StatementOf([Token(KeywordLet, "let", 0, 0), Token(Identifier, "A", 0, 4), Token(HexLiteral, "0x10", 0, 6)])
         == Ok(Some(Statements.Let("A", Hex("0x10"))))
  {
    assert "0x10"[..2] == "0x";
    LetRoundTrip("A", Hex("0x10"), []);
    ParsePolishIgnoresPositions(
      [Token(KeywordLet, "let", 0, 0), Token(Identifier, "A", 0, 0), Token(HexLiteral, "0x10", 0, 0)],
      [Token(KeywordLet, "let", 0, 0), Token(Identifier, "A", 0, 4), Token(HexLiteral, "0x10", 0, 6)], 2);
  }

  lemma DoubleTokens()
    ensures DefTokens("double", ["_a"], Op("*", Hex("0x10"), Param("_a"))) + [] ==
      [Token(KeywordDef, "def", 0, 0), Token(Identifier, "double", 0, 0),
       Token(ParamIdentifier, "_a", 0, 0), Token(Arrow, "=>", 0, 0),
       Token(OperatorMultiply, "*", 0, 0), Token(HexLiteral, "0x10", 0, 0),
       Token(ParamIdentifier, "_a", 0, 0)]
  {
    assert ParamTokens(["_a"]) == [Token(ParamIdentifier, "_a", 0, 0)];
    assert Emit(Op("*", Hex("0x10"), Param("_a"))) ==
      [Token(OperatorMultiply, "*", 0, 0), Token(HexLiteral, "0x10", 0, 0), Token(ParamIdentifier, "_a", 0, 0)];
  }

  lemma ParseDefExample()
    ensures StatementOf([Token(KeywordDef, "def", 0, 0), Token(Identifier, "double", 0, 0),
                         Token(ParamIdentifier, "_a", 0, 0), Token(Arrow, "=>", 0, 0),
                         Token(OperatorMultiply, "*", 0, 0), Token(HexLiteral, "0x10", 0, 0),
                         Token(ParamIdentifier, "_a", 0, 0)])
         == Ok(Some(Statements.Def("double", ["_a"], Op("*", Hex("0x10"), Param("_a")))))
  {
    assert "0x10"[..2] == "0x";
    DefRoundTrip("double", ["_a"], Op("*", Hex("0x10"), Param("_a")), []);
    DoubleTokens();
  }

  lemma ParseDefNoParametersExample()
    ensures StatementOf([Token(KeywordDef, "def", 0, 0), Token(Identifier, "get_value", 0, 0),
                         Token(Arrow, "=>", 0, 0), Token(HexLiteral, "0x42", 0, 0)])
         == Ok(Some(Statements.Def("get_value", [], Hex("0x42"))))
  {
    assert "0x42"[..2] == "0x";
    DefRoundTrip("get_value", [], Hex("0x42"), []);
    assert ParamTokens([]) == [];
    assert DefTokens("get_value", [], Hex("0x42")) + [] ==
      [Token(KeywordDef, "def", 0, 0), Token(Identifier, "get_value", 0, 0),
       Token(Arrow, "=>", 0, 0), Token(HexLiteral, "0x42", 0, 0)];
  }

  lemma ParseMainExample()
    ensures StatementOf([Token(KeywordMain, "main", 0, 0), Token(Identifier, "compute", 0, 0),
                         Token(Identifier, "A", 0, 0), Token(Identifier, "B", 0, 0), Token(Identifier, "C", 0, 0)])
         == Ok(Some(Statements.Main("compute", ["A", "B", "C"])))
  {
    MainRoundTrip("compute", ["A", "B", "C"], []);
    assert IdentifierTokens(["A", "B", "C"]) ==
      [Token(Identifier, "A", 0, 0), Token(Identifier, "B", 0, 0), Token(Identifier, "C", 0, 0)];
    assert MainTokens("compute", ["A", "B", "C"]) + [] ==
      [Token(KeywordMain, "main", 0, 0), Token(Identifier, "compute", 0, 0),
       Token(Identifier, "A", 0, 0), Token(Identifier, "B", 0, 0), Token(Identifier, "C", 0, 0)];
  }

  /** "def double _a 0x10" has no arrow and fails. */
  lemma ParseDefMissingArrowExample()
    ensures StatementOf([Token(KeywordDef, "def", 0, 0), Token(Identifier, "double", 0, 0),
                         Token(ParamIdentifier, "_a", 0, 0), Token(HexLiteral, "0x10", 0, 0)])
         == Err(DefBadParameter)
  {
  }
}
