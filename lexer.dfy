/** The lexer of src/compiler/lexer/lexer.cpp: classification of one word, and the
    tokens of one line and of a whole program, exactly as the code produces them
    (one comment token, or the first word only). */
module Lexer {
  import opened Wrappers
  import opened Text

  /** The kinds of `Lexer::TokenType`, together with KEYWORD_PRINT, ARROW and EQUALS,
      which the expression and statement code test for but the enum does not declare. */
  datatype TokenKind =
    | KeywordLet
    | KeywordDef
    | KeywordMain
    | KeywordPrint
    | Identifier
    | ParamIdentifier
    | OperatorPlus
    | OperatorMinus
    | OperatorMultiply
    | HexLiteral
    | Arrow
    | Equals
    | Unknown
    | Comment
    | EndOfFile

  /** `Lexer::Token`: kind, text, line number and column. */
  datatype Token = Token(kind: TokenKind, text: string, line: nat, column: nat)

  predicate IsOperatorKind(k: TokenKind) {
    k == OperatorPlus || k == OperatorMinus || k == OperatorMultiply
  }

  predicate IsKeywordWord(s: string) {
    s == "let" || s == "def" || s == "main"
  }

  predicate IsOperatorWord(s: string) {
    s == "+" || s == "-" || s == "*"
  }

  /** `Lexer::ClassifyToken`: the exact tests come first, then the prefix tests. */
  function ClassifyToken(s: string): TokenKind {
    if s == "let" then KeywordLet
    else if s == "def" then KeywordDef
    else if s == "main" then KeywordMain
    else if s == "+" then OperatorPlus
    else if s == "-" then OperatorMinus
    else if s == "*" then OperatorMultiply
    else if StartsWith(s, "0x") then HexLiteral
    else if StartsWith(s, "_") then ParamIdentifier
    else if StartsWith(s, "//") then Comment
    else if s == "" then EndOfFile
    else Unknown
  }

  /** No two tests of `ClassifyToken` accept the same word, so each kind is
      characterised on its own, whatever the order of the tests; the lexer never
      produces identifiers, `print`, arrows or equals signs. */
  lemma {:induction false} ClassifyTokenKinds(s: string)
    ensures ClassifyToken(s) == KeywordLet <==> s == "let"
    ensures ClassifyToken(s) == KeywordDef <==> s == "def"
    ensures ClassifyToken(s) == KeywordMain <==> s == "main"
    ensures ClassifyToken(s) == OperatorPlus <==> s == "+"
    ensures ClassifyToken(s) == OperatorMinus <==> s == "-"
    ensures ClassifyToken(s) == OperatorMultiply <==> s == "*"
    ensures ClassifyToken(s) == HexLiteral <==> StartsWith(s, "0x")
    ensures ClassifyToken(s) == ParamIdentifier <==> StartsWith(s, "_")
    ensures ClassifyToken(s) == Comment <==> StartsWith(s, "//")
    ensures ClassifyToken(s) == EndOfFile <==> s == ""
    ensures ClassifyToken(s) == Unknown <==>
              !IsKeywordWord(s) && !IsOperatorWord(s) && s != "" &&
              !StartsWith(s, "0x") && !StartsWith(s, "_") && !StartsWith(s, "//")
    ensures ClassifyToken(s) !in {Identifier, KeywordPrint, Arrow, Equals}
  {
    PrefixTests(s);
  }

  /** The three prefix tests of `ClassifyToken`, character by character. */
  lemma {:induction false} PrefixTests(s: string)
    ensures StartsWith(s, "0x") <==> |s| >= 2 && s[0] == '0' && s[1] == 'x'
    ensures StartsWith(s, "_") <==> |s| >= 1 && s[0] == '_'
    ensures StartsWith(s, "//") <==> |s| >= 2 && s[0] == '/' && s[1] == '/'
  {
    if |s| >= 2 {
      assert s[..2] == [s[0], s[1]];
    }
    if |s| >= 1 {
      assert s[..1] == [s[0]];
    }
  }

  /** The characters `std::isspace` accepts in the "C" locale; `operator>>` on an
      `istringstream` skips them and stops a word at them. */
  predicate IsSpace(c: char) {
    c == ' ' || c == '\t' || c == '\n' || c == '\r' || c == '\U{000B}' || c == '\U{000C}'
  }

  /** The index of the first non-space character at or after `i`. */
  function SkipSpace(s: string, i: nat): (j: nat)
    requires i <= |s|
    decreases |s| - i
    ensures i <= j <= |s|
    ensures forall k :: i <= k < j ==> IsSpace(s[k])
    ensures j == |s| || !IsSpace(s[j])
  {
    if i == |s| || !IsSpace(s[i]) then i else SkipSpace(s, i + 1)
  }

  /** The index just past the run of non-space characters that starts at `i`. */
  function WordEnd(s: string, i: nat): (j: nat)
    requires i <= |s|
    decreases |s| - i
    ensures i <= j <= |s|
    ensures forall k :: i <= k < j ==> !IsSpace(s[k])
    ensures j == |s| || IsSpace(s[j])
  {
    if i == |s| || IsSpace(s[i]) then i else WordEnd(s, i + 1)
  }

  /** The word `iss >> token_string` extracts first from `line`. */
  function FirstWord(line: string): string {
    var start := SkipSpace(line, 0);
    line[start..WordEnd(line, start)]
  }

  /** What `Lexer::TokenizeLine` returns for `line`: the comment token when the line
      holds "//", otherwise the first whitespace-separated word at column 0, or nothing. */
  function LineTokens(line: string, lineNumber: nat): seq<Token> {
    match IndexOf(line, "//")
    case Some(p) => [Token(Comment, line[p..], lineNumber, p)]
    case None =>
      if SkipSpace(line, 0) == |line| then []
      else [Token(ClassifyToken(FirstWord(line)), FirstWord(line), lineNumber, 0)]
  }

  /** `Lexer::TokenizeLine`: the comment check, then one extraction of a word,
      after which the loop body returns. */
  method TokenizeLine(line: string, lineNumber: nat) returns (tokens: seq<Token>)
    ensures tokens == LineTokens(line, lineNumber)
  {
    tokens := [];
    var commentPos := IndexOf(line, "//");
    if commentPos.Some? {
      var p := commentPos.value;
      tokens := tokens + [Token(Comment, line[p..], lineNumber, p)];
      return;
    }
    var column: nat := 0;
    // `iss >> token_string`: skip leading whitespace, then read one word.
    var i := 0;
    while i < |line| && IsSpace(line[i])
      invariant i <= |line|
      invariant SkipSpace(line, i) == SkipSpace(line, 0)
    {
      i := i + 1;
    }
    if i < |line| {
      var j := i;
      while j < |line| && !IsSpace(line[j])
        invariant i <= j <= |line|
        invariant WordEnd(line, j) == WordEnd(line, i)
      {
        j := j + 1;
      }
      var word := line[i..j];
      tokens := tokens + [Token(ClassifyToken(word), word, lineNumber, column)];
      column := column + |word| + 1;
      return;
    }
  }

  /** What `Lexer::Tokenize` returns: the tokens of each line, numbered by its index,
      in line order. */
  function AllTokens(lines: seq<string>): seq<Token>
    decreases |lines|
  {
    if |lines| == 0 then []
    else AllTokens(lines[..|lines| - 1]) + LineTokens(lines[|lines| - 1], |lines| - 1)
  }

  /** `Lexer::Tokenize`. */
  method Tokenize(lines: seq<string>) returns (tokens: seq<Token>)
    ensures tokens == AllTokens(lines)
  {
    tokens := [];
    for lineNumber := 0 to |lines|
      invariant tokens == AllTokens(lines[..lineNumber])
    {
      var lineTokens := TokenizeLine(lines[lineNumber], lineNumber);
      assert lines[..lineNumber + 1][..lineNumber] == lines[..lineNumber];
      tokens := tokens + lineTokens;
    }
    assert lines[..|lines|] == lines;
  }

  // ----- Properties of the lexer -----

  /** A line holding "//" anywhere lexes to one comment token: the text from the first
      "//" to the end of the line, at that column; whatever precedes it is dropped. */
  lemma {:induction false} CommentSwallowsLine(line: string, lineNumber: nat, p: nat)
    requires FirstAt(line, "//", p)
    ensures LineTokens(line, lineNumber) == [Token(Comment, line[p..], lineNumber, p)]
    ensures StartsWith(line[p..], "//")
  {
    assert line[p..][..2] == line[p..p + 2];
  }

  /** Without "//", a line yields no token exactly when it is blank. */
  lemma {:induction false} BlankLineHasNoTokens(line: string, lineNumber: nat)
    requires !Contains(line, "//")
    ensures LineTokens(line, lineNumber) == [] <==> forall k :: 0 <= k < |line| ==> IsSpace(line[k])
  {
  }

  /** Without "//", a non-blank line yields exactly one token: its first word,
      classified, at column 0. */
  lemma {:induction false} FirstWordOnly(line: string, lineNumber: nat, k: nat)
    requires !Contains(line, "//")
    requires k < |line| && !IsSpace(line[k])
    ensures LineTokens(line, lineNumber) ==
              [Token(ClassifyToken(FirstWord(line)), FirstWord(line), lineNumber, 0)]
  {
  }

  /** The first word is non-empty, free of whitespace, preceded only by whitespace and
      followed by whitespace or the end of the line. */
  lemma {:induction false} FirstWordShape(line: string, k: nat)
    requires k < |line| && !IsSpace(line[k])
    ensures FirstWord(line) != []
    ensures forall i :: 0 <= i < |FirstWord(line)| ==> !IsSpace(FirstWord(line)[i])
    ensures exists start: nat :: start <= k && OccursAt(line, FirstWord(line), start)
              && (forall i :: 0 <= i < start ==> IsSpace(line[i]))
              && (start + |FirstWord(line)| == |line| || IsSpace(line[start + |FirstWord(line)|]))
  {
    var start := SkipSpace(line, 0);
    var w := FirstWord(line);
    assert start <= k;
    assert OccursAt(line, w, start);
  }

  /** Every line yields at most one token, and it carries that line's number. */
  lemma {:induction false} AtMostOneToken(line: string, lineNumber: nat)
    ensures |LineTokens(line, lineNumber)| <= 1
    ensures forall t :: t in LineTokens(line, lineNumber) ==>
              t.line == lineNumber && LineTokens(line, lineNumber) == [t]
  {
  }

  /** `Tokenize` yields at most one token per line, and the tokens appear in strictly
      increasing line order; each carries the index of its line and is that line's token. */
  lemma {:induction false} TokensFollowLines(lines: seq<string>)
    ensures |AllTokens(lines)| <= |lines|
    ensures forall a :: 0 <= a < |AllTokens(lines)| ==>
              AllTokens(lines)[a].line < |lines| &&
              LineTokens(lines[AllTokens(lines)[a].line], AllTokens(lines)[a].line) == [AllTokens(lines)[a]]
    ensures forall a, b :: 0 <= a < b < |AllTokens(lines)| ==> AllTokens(lines)[a].line < AllTokens(lines)[b].line
    decreases |lines|
  {
    if |lines| > 0 {
      var n := |lines| - 1;
      var init := lines[..n];
      TokensFollowLines(init);
      var before := AllTokens(init);
      var last := LineTokens(lines[n], n);
      AtMostOneToken(lines[n], n);
      var toks := before + last;
      assert AllTokens(lines) == toks;
      forall a | 0 <= a < |toks|
        ensures toks[a].line < |lines| && LineTokens(lines[toks[a].line], toks[a].line) == [toks[a]]
      {
        if a < |before| {
          assert toks[a] == before[a];
          assert init[before[a].line] == lines[before[a].line];
        } else {
          assert toks[a] == last[0] && last[0] in last;
        }
      }
      forall a, b | 0 <= a < b < |toks| ensures toks[a].line < toks[b].line {
        if b < |before| {
          assert toks[a] == before[a] && toks[b] == before[b];
        } else {
          assert toks[b] == last[0] && last[0] in last;
          assert toks[a] == before[a];
        }
      }
    }
  }

  /** `ParseLine` lexes a line as a one-line program: that is the line's own tokens at line 0. */
  lemma {:induction false} SingleLineProgram(line: string)
    ensures AllTokens([line]) == LineTokens(line, 0)
  {
    assert [line][..0] == [];
  }

  /** Only the first word of "let A 0x10" becomes a token. */
  lemma LetLineTokens()
    ensures AllTokens(["let A 0x10"]) == [Token(KeywordLet, "let", 0, 0)]
  {
    var line := "let A 0x10";
    assert LacksFrom(line, '/', 0);
    MissingFirstChar(line, "//");
    FirstWordOnly(line, 0, 0);
    assert SkipSpace(line, 0) == 0;
    assert WordEnd(line, 3) == 3;
    assert WordEnd(line, 0) == 3;
    assert FirstWord(line) == "let";
    SingleLineProgram(line);
  }

  /** Only the first word of "print Hello World" becomes a token, and "print" is not
      one of the words the classifier knows. */
  lemma PrintLineTokens()
    ensures AllTokens(["print Hello World"]) == [Token(Unknown, "print", 0, 0)]
  {
    var line := "print Hello World";
    assert FirstWord(line) == "print" by {
      assert SkipSpace(line, 0) == 0;
      assert WordEnd(line, 5) == 5;
      assert WordEnd(line, 3) == 5;
      assert WordEnd(line, 0) == 5;
    }
    assert ClassifyToken("print") == Unknown by { PrefixTests("print"); }
    assert LacksFrom(line, '/', 0);
    MissingFirstChar(line, "//");
    FirstWordOnly(line, 0, 0);
    SingleLineProgram(line);
  }

  // ----- Expectations of src/unit_tests/lexer/lexer_tests.cpp -----

  /** Exact keyword matching and the bare prefixes. */
  lemma ClassifyExamples()
    ensures ClassifyToken("letx") == Unknown
    ensures ClassifyToken("abc") == Unknown
    ensures ClassifyToken("variable") == Unknown
    ensures ClassifyToken("=") == Unknown
    ensures ClassifyToken("(") == Unknown
  {
    PrefixTests("letx");
    PrefixTests("abc");
    PrefixTests("variable");
    PrefixTests("=");
    PrefixTests("(");
  }

  /** Hex literals need only "0x" and comments only "//"; a lone "0" or "0abc" is not hex. */
  lemma PrefixExamples()
    ensures ClassifyToken("0") == Unknown
    ensures ClassifyToken("0abc") == Unknown
    ensures ClassifyToken("0x") == HexLiteral
    ensures ClassifyToken("_") == ParamIdentifier
    ensures ClassifyToken("// comment") == Comment
    ensures ClassifyToken("") == EndOfFile
  {
    PrefixTests("0");
    PrefixTests("0abc");
    PrefixTests("0x");
    PrefixTests("_");
    PrefixTests("// comment");
  }
}
