/** The expression tree of src/compiler/statement/include/statement/expression.hpp and
    the token-to-tree code of src/compiler/statement/expression.cpp. The class family
    becomes one datatype; its getters are the datatype's fields. */
module Expressions {
  import opened Wrappers
  import opened Text
  import opened Lexer

  // ----- Error messages -----

  const InvalidHexMessage := "Invalid hex literal: "
  const EndOfTokensMessage := "Unexpected end of tokens in expression"
  const UnknownTokenMessage := "Unknown token type"
  const OperatorTokenMessage := "Operator tokens must be parsed with ParsePolishExpression: "
  const SymbolTokenMessage := "Unexpected symbol token in expression: "
  const OtherTokenMessage := "Unexpected token in expression: "

  /** HexLiteralExpression, IdentifierExpression, ParameterExpression,
      OperatorExpression (always two children) and KeywordExpression. */
  datatype Expr =
    | Hex(hexString: string)
    | Ident(name: string)
    | Param(paramName: string)
    | Op(op: string, left: Expr, right: Expr)
    | Keyword(keyword: string)

  /** The `HexLiteralExpression` constructor: it throws unless the text has at least
      three characters and starts with "0x"; the characters after "0x" are not examined. */
  function NewHexLiteral(s: string): (r: Result<Expr>)
    ensures r.Ok? <==> |s| >= 3 && StartsWith(s, "0x")
    ensures r.Ok? ==> r.value == Hex(s)
    ensures r.Err? ==> r.message == InvalidHexMessage + s
  {
    if |s| < 3 || !StartsWith(s, "0x") then Err(InvalidHexMessage + s)
    else if s[2..] == [] then Err(InvalidHexMessage + s)
    else Ok(Hex(s))
  }

  /** `Expression::ToString`: a leaf gives back its text; an operator gives
      op + " " + left + " " + right. */
  function ToString(e: Expr): string {
    match e
    case Hex(h) => h
    case Ident(n) => n
    case Param(p) => p
    case Keyword(k) => k
    case Op(op, l, r) => op + " " + ToString(l) + " " + ToString(r)
  }

  /** The words of `e` in prefix (Polish) order, operator before its operands. */
  function Prefix(e: Expr): seq<string> {
    match e
    case Op(op, l, r) => [op] + Prefix(l) + Prefix(r)
    case _ => [ToString(e)]
  }

  function OperatorCount(e: Expr): nat {
    match e
    case Op(_, l, r) => 1 + OperatorCount(l) + OperatorCount(r)
    case _ => 0
  }

  /** The text of every token in `tokens`, in order. */
  function Texts(tokens: seq<Token>): seq<string> {
    if tokens == [] then [] else [tokens[0].text] + Texts(tokens[1..])
  }

  lemma {:induction false} TextsAppend(a: seq<Token>, b: seq<Token>)
    ensures Texts(a + b) == Texts(a) + Texts(b)
    ensures |Texts(a)| == |a|
    decreases |a|
  {
    if a != [] {
      assert (a + b)[0] == a[0];
      assert (a + b)[1..] == a[1..] + b;
      TextsAppend(a[1..], b);
    } else {
      assert a + b == b;
    }
  }

  /** The texts of the tokens between `i` and `k` are those up to `j` followed by the rest. */
  lemma {:induction false} TextsSplit(tokens: seq<Token>, i: nat, j: nat, k: nat)
    requires i <= j <= k <= |tokens|
    ensures Texts(tokens[i..k]) == Texts(tokens[i..j]) + Texts(tokens[j..k])
  {
    assert tokens[i..k] == tokens[i..j] + tokens[j..k];
    TextsAppend(tokens[i..j], tokens[j..k]);
  }

  /** A binary tree in prefix order has one more leaf than operators. */
  lemma {:induction false} PrefixLength(e: Expr)
    ensures |Prefix(e)| == 2 * OperatorCount(e) + 1
  {
    match e
    case Op(_, l, r) => PrefixLength(l); PrefixLength(r);
    case _ =>
  }

  /** `ToString` is the prefix-order words of the tree joined by single spaces. */
  lemma {:induction false} ToStringJoinsPrefix(e: Expr)
    ensures ToString(e) == Join(Prefix(e), " ")
  {
    match e
    case Op(op, l, r) =>
      ToStringJoinsPrefix(l);
      ToStringJoinsPrefix(r);
      PrefixLength(l);
      PrefixLength(r);
      JoinAppend(Prefix(l), Prefix(r), " ");
      JoinAppend([op], Prefix(l) + Prefix(r), " ");
      assert [op] + Prefix(l) + Prefix(r) == [op] + (Prefix(l) + Prefix(r));
    case _ =>
  }

  /** The token kinds `CreateExpression` lifts to a leaf. */
  predicate IsLeafKind(k: TokenKind) {
    k == HexLiteral || k == Identifier || k == ParamIdentifier ||
    k == KeywordLet || k == KeywordDef || k == KeywordMain || k == KeywordPrint
  }

  /** Leaf `e` is what a token of kind `k` lifts to. */
  predicate LiftedFrom(e: Expr, k: TokenKind) {
    match e
    case Hex(_) => k == HexLiteral
    case Ident(_) => k == Identifier
    case Param(_) => k == ParamIdentifier
    case Keyword(_) => k == KeywordLet || k == KeywordDef || k == KeywordMain || k == KeywordPrint
    case Op(_, _, _) => false
  }

  /** `CreateExpression`: a leaf token becomes the leaf of its kind holding the token's
      text (a hex literal is still validated); operators, "=", "=>", comments, end of
      input and every other kind, UNKNOWN included, throw. */
  function CreateExpression(token: Token): Result<Expr> {
    match token.kind
    case HexLiteral => NewHexLiteral(token.text)
    case Identifier => Ok(Ident(token.text))
    case ParamIdentifier => Ok(Param(token.text))
    case KeywordLet => Ok(Keyword(token.text))
    case KeywordDef => Ok(Keyword(token.text))
    case KeywordMain => Ok(Keyword(token.text))
    case KeywordPrint => Ok(Keyword(token.text))
    case OperatorPlus => Err(OperatorTokenMessage + token.text)
    case OperatorMinus => Err(OperatorTokenMessage + token.text)
    case OperatorMultiply => Err(OperatorTokenMessage + token.text)
    case Equals => Err(SymbolTokenMessage + token.text)
    case Arrow => Err(SymbolTokenMessage + token.text)
    case Comment => Err(OtherTokenMessage + token.text)
    case EndOfFile => Err(OtherTokenMessage + token.text)
    case Unknown => Err(UnknownTokenMessage)
  }

  /** Exactly the leaf kinds lift, a hex literal only when its text is valid. */
  lemma {:induction false} CreateExpressionSucceeds(token: Token)
    ensures CreateExpression(token).Ok? <==>
      IsLeafKind(token.kind) && (token.kind == HexLiteral ==> NewHexLiteral(token.text).Ok?)
  {
    if token.kind == HexLiteral {
      assert CreateExpression(token) == NewHexLiteral(token.text);
    } else if IsLeafKind(token.kind) {
      assert CreateExpression(token).Ok?;
    } else {
      assert CreateExpression(token).Err?;
    }
  }

  /** A lifted leaf is of the token's kind and holds the token's text. */
  lemma {:induction false} CreateExpressionLifts(token: Token)
    requires CreateExpression(token).Ok?
    ensures LiftedFrom(CreateExpression(token).value, token.kind)
    ensures ToString(CreateExpression(token).value) == token.text
  {
  }

  /** `ParsePolishExpression(tokens, index)`: the tree and the advanced index. An
      operator token is consumed, then the left operand and then the right one are
      parsed from the advancing index; any other token is consumed and lifted. The
      index only moves forward, and the consumed tokens spell the tree in prefix order. */
  function ParsePolish(tokens: seq<Token>, index: nat): (r: Result<(Expr, nat)>)
    decreases |tokens| - index
    ensures index >= |tokens| ==> r.Err?
    ensures r.Ok? ==> index < r.value.1 <= |tokens|
  {
    if index >= |tokens| then Err(EndOfTokensMessage)
    else
      var token := tokens[index];
      if IsOperatorKind(token.kind) then
        var left :- ParsePolish(tokens, index + 1);
        var right :- ParsePolish(tokens, left.1);
        Ok((Op(token.text, left.0, right.0), right.1))
      else
        var leaf :- CreateExpression(token);
        Ok((leaf, index + 1))
  }

  /** The consumed tokens spell the tree in prefix order. */
  lemma {:induction false} ParsePolishSpells(tokens: seq<Token>, index: nat)
    requires ParsePolish(tokens, index).Ok?
    ensures Prefix(ParsePolish(tokens, index).value.0) == Texts(tokens[index..ParsePolish(tokens, index).value.1])
    decreases |tokens| - index
  {
    var token := tokens[index];
    if IsOperatorKind(token.kind) {
      var left := ParsePolish(tokens, index + 1).value;
      var right := ParsePolish(tokens, left.1).value;
      ParsePolishSpells(tokens, index + 1);
      ParsePolishSpells(tokens, left.1);
      OperatorSpelling(tokens, index, left.1, right.1, left.0, right.0);
    } else {
      CreateExpressionLifts(token);
      LeafSpelling(tokens, index, CreateExpression(token).value);
    }
  }

  lemma {:induction false} OperatorSpelling(tokens: seq<Token>, index: nat, mid: nat, next: nat, l: Expr, r: Expr)
    requires index < mid <= next <= |tokens|
    requires Prefix(l) == Texts(tokens[index + 1..mid]) && Prefix(r) == Texts(tokens[mid..next])
    ensures Prefix(Op(tokens[index].text, l, r)) == Texts(tokens[index..next])
  {
    TextsSplit(tokens, index, index + 1, next);
    TextsSplit(tokens, index + 1, mid, next);
    assert Texts(tokens[index..index + 1]) == [tokens[index].text];
    var t, pl, pr := [tokens[index].text], Prefix(l), Prefix(r);
    assert t + (pl + pr) == t + pl + pr;
  }

  lemma {:induction false} LeafSpelling(tokens: seq<Token>, index: nat, leaf: Expr)
    requires index < |tokens| && !leaf.Op? && ToString(leaf) == tokens[index].text
    ensures Prefix(leaf) == Texts(tokens[index..index + 1])
  {
    assert Texts(tokens[index..index + 1]) == [tokens[index].text];
  }

  /** On success the index advances by 2 * (number of operators) + 1, and the tree's
      `ToString` is the consumed token texts joined by single spaces. */
  lemma {:induction false} ParsePolishConsumes(tokens: seq<Token>, index: nat)
    requires ParsePolish(tokens, index).Ok?
    ensures var (e, next) := ParsePolish(tokens, index).value;
      next - index == 2 * OperatorCount(e) + 1 &&
      ToString(e) == Join(Texts(tokens[index..next]), " ")
  {
    var (e, next) := ParsePolish(tokens, index).value;
    ParsePolishSpells(tokens, index);
    TextsAppend(tokens[index..next], []);
    PrefixLength(e);
    ToStringJoinsPrefix(e);
  }

  // ----- Round trip: the tokens that spell a tree parse back to it -----

  /** The trees a token list can spell: valid hex literals, the three operators and
      the four keywords. */
  predicate WellFormed(e: Expr) {
    match e
    case Hex(h) => |h| >= 3 && StartsWith(h, "0x")
    case Ident(_) => true
    case Param(_) => true
    case Keyword(k) => k == "let" || k == "def" || k == "main" || k == "print"
    case Op(op, l, r) => (op == "+" || op == "-" || op == "*") && WellFormed(l) && WellFormed(r)
  }

  function OperatorKind(op: string): TokenKind {
    if op == "+" then OperatorPlus else if op == "-" then OperatorMinus else OperatorMultiply
  }

  function KeywordKind(k: string): TokenKind {
    if k == "let" then KeywordLet
    else if k == "def" then KeywordDef
    else if k == "main" then KeywordMain
    else KeywordPrint
  }

  /** The tokens of a tree, in prefix order, as the lexer would classify them. */
  function Emit(e: Expr): seq<Token> {
    match e
    case Hex(h) => [Token(HexLiteral, h, 0, 0)]
    case Ident(n) => [Token(Identifier, n, 0, 0)]
    case Param(p) => [Token(ParamIdentifier, p, 0, 0)]
    case Keyword(k) => [Token(KeywordKind(k), k, 0, 0)]
    case Op(op, l, r) => [Token(OperatorKind(op), op, 0, 0)] + Emit(l) + Emit(r)
  }

  /** Whatever precedes and follows them, the tokens of a well-formed tree parse
      back to exactly that tree and consume exactly those tokens. */
  lemma {:induction false} ParsePolishRoundTrip(e: Expr, before: seq<Token>, after: seq<Token>)
    requires WellFormed(e)
    ensures ParsePolish(before + Emit(e) + after, |before|) == Ok((e, |before| + |Emit(e)|))
  {
    EmitSpells(e, before, after);
    SpelledParses(before + Emit(e) + after, |before|, e);
    EmitSize(e);
  }

  /** The tokens from index `i` on spell `e` in prefix order, token by token. */
  predicate SpelledAt(tokens: seq<Token>, i: nat, e: Expr)
    decreases e
  {
    i < |tokens| &&
    if e.Op? then
      IsOperatorKind(tokens[i].kind) && tokens[i].text == e.op &&
      SpelledAt(tokens, i + 1, e.left) && SpelledAt(tokens, i + 1 + Size(e.left), e.right)
    else
      !IsOperatorKind(tokens[i].kind) && CreateExpression(tokens[i]) == Ok(e)
  }

  lemma {:induction false} SpelledParses(tokens: seq<Token>, i: nat, e: Expr)
    requires SpelledAt(tokens, i, e)
    ensures ParsePolish(tokens, i) == Ok((e, i + Size(e)))
    decreases e
  {
    if e.Op? {
      var mid := i + 1 + Size(e.left);
      SpelledParses(tokens, i + 1, e.left);
      SpelledParses(tokens, mid, e.right);
      OperatorStep(tokens, i, mid, mid + Size(e.right), e.left, e.right);
    }
  }

  /** The number of tokens a tree spells. */
  function Size(e: Expr): nat {
    2 * OperatorCount(e) + 1
  }

  lemma {:induction false} EmitSize(e: Expr)
    ensures |Emit(e)| == Size(e)
  {
    if e.Op? {
      EmitSize(e.left);
      EmitSize(e.right);
    }
  }

  lemma {:induction false} EmitSpells(e: Expr, before: seq<Token>, after: seq<Token>)
    requires WellFormed(e)
    ensures SpelledAt(before + Emit(e) + after, |before|, e)
  {
    var tokens := before + Emit(e) + after;
    assert tokens[|before|] == Emit(e)[0];
    if e.Op? {
      var el, er := Emit(e.left), Emit(e.right);
      var before' := before + [Emit(e)[0]];
      assert Emit(e) == [Emit(e)[0]] + el + er;
      assert tokens == before' + el + (er + after);
      EmitSpells(e.left, before', er + after);
      EmitSize(e.left);
      assert tokens == (before' + el) + er + after;
      EmitSpells(e.right, before' + el, after);
    } else {
      LeafRoundTrip(e, tokens, |before|);
    }
  }

  /** An operator token followed by its two operands parses to their node. */
  lemma {:induction false} OperatorStep(tokens: seq<Token>, index: nat, mid: nat, next: nat, l: Expr, r: Expr)
    requires index < |tokens| && IsOperatorKind(tokens[index].kind)
    requires ParsePolish(tokens, index + 1) == Ok((l, mid))
    requires ParsePolish(tokens, mid) == Ok((r, next))
    ensures ParsePolish(tokens, index) == Ok((Op(tokens[index].text, l, r), next))
  {
  }

  lemma {:induction false} LeafRoundTrip(e: Expr, tokens: seq<Token>, index: nat)
    requires !e.Op? && WellFormed(e) && index < |tokens| && tokens[index] == Emit(e)[0]
    ensures !IsOperatorKind(tokens[index].kind) && CreateExpression(tokens[index]) == Ok(e)
  {
  }

  /** Same kinds and texts, position for position; lines and columns may differ. */
  predicate SameWords(ts: seq<Token>, us: seq<Token>) {
    |ts| == |us| && forall k :: 0 <= k < |ts| ==> ts[k].kind == us[k].kind && ts[k].text == us[k].text
  }

  /** The parse depends on the kinds and texts of the tokens only, never on their
      line or column. */
  lemma {:induction false} ParsePolishIgnoresPositions(ts: seq<Token>, us: seq<Token>, index: nat)
    requires SameWords(ts, us)
    ensures ParsePolish(ts, index) == ParsePolish(us, index)
    decreases |ts| - index
  {
    if index < |ts| {
      assert CreateExpression(ts[index]) == CreateExpression(us[index]);
      if IsOperatorKind(ts[index].kind) {
        ParsePolishIgnoresPositions(ts, us, index + 1);
        var left := ParsePolish(ts, index + 1);
        if left.Ok? {
          ParsePolishIgnoresPositions(ts, us, left.value.1);
        }
      }
    }
  }

  // ----- Expectations of src/unit_tests/expression/expression_tests.cpp -----

  lemma HexLiteralExamples()
    ensures NewHexLiteral("0x10") == Ok(Hex("0x10"))
    ensures NewHexLiteral("0x123") == Ok(Hex("0x123"))
    ensures NewHexLiteral("0xabcd") == Ok(Hex("0xabcd"))
    ensures NewHexLiteral("0xAbCd") == Ok(Hex("0xAbCd"))
    ensures NewHexLiteral("0x0") == Ok(Hex("0x0"))
    ensures NewHexLiteral("1234").Err? && NewHexLiteral("0").Err?
    ensures NewHexLiteral("x").Err? && NewHexLiteral("0x").Err?
  {
    assert "0x10"[..2] == "0x" && "0x123"[..2] == "0x" && "0xabcd"[..2] == "0x";
    assert "0xAbCd"[..2] == "0x" && "0x0"[..2] == "0x" && "1234"[..2][0] == '1';
  }

  /** Only the prefix is checked: "0x" followed by anything at all is accepted. */
  lemma {:induction false} HexTailUnchecked(tail: string)
    requires tail != []
    ensures NewHexLiteral("0x" + tail) == Ok(Hex("0x" + tail))
  {
    assert ("0x" + tail)[..2] == "0x";
  }

  /** The tokens of "* + 0x01 0x02 _a", at the columns the lexer would give them. */
  function NestedLeftTokens(): seq<Token> {
    [Token(OperatorMultiply, "*", 0, 0), Token(OperatorPlus, "+", 0, 2),
     Token(HexLiteral, "0x01", 0, 4), Token(HexLiteral, "0x02", 0, 9),
     Token(ParamIdentifier, "_a", 0, 14)]
  }

  /** "* + 0x01 0x02 _a" parses to * (+ 0x01 0x02) _a and consumes all five tokens;
      `NestedLeftPrints` shows that it prints back as written. */
  lemma NestedLeftExample()
    ensures ParsePolish(NestedLeftTokens(), 0) == Ok((Op("*", Op("+", Hex("0x01"), Hex("0x02")), Param("_a")), 5))
  {
    var tokens := NestedLeftTokens();
    var plus := Op("+", Hex("0x01"), Hex("0x02"));
    assert "0x01"[..2] == "0x" && "0x02"[..2] == "0x";
    assert SpelledAt(tokens, 2, Hex("0x01"));
    assert SpelledAt(tokens, 3, Hex("0x02"));
    assert SpelledAt(tokens, 1, plus);
    assert SpelledAt(tokens, 4, Param("_a"));
    SpelledParses(tokens, 0, Op("*", plus, Param("_a")));
  }

  lemma NestedLeftPrints()
    ensures ToString(Op("*", Op("+", Hex("0x01"), Hex("0x02")), Param("_a"))) == "* + 0x01 0x02 _a"
  {
    assert "+" + " " + "0x01" + " " + "0x02" == "+ 0x01 0x02";
    assert ToString(Op("+", Hex("0x01"), Hex("0x02"))) == "+ 0x01 0x02";
    assert "*" + " " + "+ 0x01 0x02" + " " + "_a" == "* + 0x01 0x02 _a";
  }

  /** Running out of tokens is an error: the empty list, an index past the end, and an
      operator whose second operand is missing. */
  lemma EndOfTokensExamples()
    ensures ParsePolish([], 0).Err?
    ensures ParsePolish([Token(HexLiteral, "0x10", 0, 0)], 10).Err?
    ensures ParsePolish([Token(OperatorPlus, "+", 0, 0), Token(HexLiteral, "0x10", 0, 2)], 0).Err?
  {
  }
}
