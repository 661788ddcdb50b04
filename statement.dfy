/** The statements of the current pipeline and the C++ each one generates:
    `CommentStatement` (src/compiler/parser/parser.cpp), `LetStatement`,
    `DefStatement` and `MainStatement` (whose `GenerateCode` is fixed by the strings of
    src/unit_tests/statement/statement_tests.cpp) and the expression-list
    `PrintStatement` of src/compiler/statement/statement.cpp. */
module Statements {
  import opened Wrappers
  import opened Text
  import opened Expressions

  // ----- Error messages -----

  const KeywordMessage := "Keyword cannot be lowered to C++: "
  const OperatorMessage := "Unsupported operator: "
  const LetValueMessage := "let statement requires a hex literal value"
  const PrintArityMessage := "PrintStatement requires at least 2 expressions"

  /** The constructors keep their arguments unchanged; the getters are the fields. */
  datatype Statement =
    | Let(varName: string, value: Expr)
    | Def(funcName: string, params: seq<string>, body: Expr)
    | Main(funcName: string, args: seq<string>)
    | Comment(text: string)
    | Print(expressions: seq<Expr>)

  // ----- Lowering a function body to C++ -----

  /** The C++ helper of the program template that an operator lowers to. */
  function HelperName(op: string): (r: Option<string>)
    ensures r.Some? <==> op == "+" || op == "-" || op == "*"
  {
    if op == "*" then Some("multiply_vectors")
    else if op == "+" then Some("add_vectors")
    else if op == "-" then Some("subtract_vectors")
    else None
  }

  /** The trees a body can be lowered from: operators among "+", "-" and "*", and no
      keyword leaves. */
  predicate Lowerable(e: Expr) {
    match e
    case Hex(_) => true
    case Ident(_) => true
    case Param(_) => true
    case Keyword(_) => false
    case Op(op, l, r) => (op == "+" || op == "-" || op == "*") && Lowerable(l) && Lowerable(r)
  }

  /** A body as C++: an operator becomes a call of its helper on the lowered operands,
      a hex literal h becomes the initializer list {h}, a parameter or an identifier
      its bare name. */
  function Lower(e: Expr): (r: Result<string>)
    ensures r.Ok? <==> Lowerable(e)
    ensures e.Hex? ==> r == Ok("{" + e.hexString + "}")
    ensures e.Param? ==> r == Ok(e.paramName)
    ensures e.Ident? ==> r == Ok(e.name)
  {
    match e
    case Hex(h) => Ok("{" + h + "}")
    case Ident(n) => Ok(n)
    case Param(p) => Ok(p)
    case Keyword(k) => Err(KeywordMessage + k)
    case Op(op, l, r) =>
      match HelperName(op)
      case None => Err(OperatorMessage + op)
      case Some(helper) =>
        var left :- Lower(l);
        var right :- Lower(r);
        Ok(helper + "(" + left + ", " + right + ")")
  }

  /** Every operator node of a lowered body is a call of its own helper on the
      lowered operands. */
  lemma {:induction false} LowerOperator(op: string, l: Expr, r: Expr)
    requires Lowerable(Op(op, l, r))
    ensures HelperName(op).Some?
    ensures Lower(Op(op, l, r)) ==
            Ok(HelperName(op).value + "(" + Lower(l).value + ", " + Lower(r).value + ")")
  {
  }

  // ----- Code of each statement -----

  /** One declared parameter in a C++ signature. */
  function ParamDecl(p: string): string {
    "const std::vector<uint8_t>& " + p
  }

  function ParamDecls(params: seq<string>): (r: seq<string>)
    ensures |r| == |params|
    ensures forall i :: 0 <= i < |params| ==> r[i] == ParamDecl(params[i])
  {
    if params == [] then [] else [ParamDecl(params[0])] + ParamDecls(params[1..])
  }

  function LetCode(varName: string, value: Expr): (r: Result<string>)
    ensures r.Ok? <==> value.Hex?
    ensures value.Hex? ==> r.value == "std::vector<uint8_t> " + varName + " = " + Lower(value).value + ";\n"
  {
    match value
    case Hex(h) => Ok("std::vector<uint8_t> " + varName + " = {" + h + "};\n")
    case _ => Err(LetValueMessage)
  }

  /** The signature line of a generated function: one byte-vector parameter per
      declared parameter, separated by ", ". */
  function Signature(funcName: string, params: seq<string>): string {
    "std::vector<uint8_t> " + funcName + "(" + Join(ParamDecls(params), ", ") + ") {\n"
  }

  function ReturnLine(lowered: string): string {
    "  return " + lowered + ";\n"
  }

  function DefCode(funcName: string, params: seq<string>, body: Expr): (r: Result<string>)
    ensures r.Ok? <==> Lowerable(body)
  {
    var lowered :- Lower(body);
    Ok(Signature(funcName, params) + ReturnLine(lowered) + "}\n")
  }

  function CallLine(funcName: string, args: seq<string>): string {
    "auto result = " + funcName + "(" + Join(args, ", ") + ");\n"
  }

  function MainCode(funcName: string, args: seq<string>): string {
    CallLine(funcName, args) + "print_vector(std::cout, result);\n"
  }

  function CommentCode(text: string): string {
    "// " + text + "\n"
  }

  /** `PrintStatement::GenerateCode`: the text of the second expression between the
      quotes of a `std::cout` line, copied without escaping. */
  function PrintCode(expressions: seq<Expr>): (r: Result<string>)
    ensures r.Ok? <==> |expressions| >= 2
    ensures r.Err? ==> r.message == PrintArityMessage
  {
    if |expressions| < 2 then Err(PrintArityMessage)
    else Ok("std::cout << \"" + ToString(expressions[1]) + "\" << std::endl;\n")
  }

  /** The character-by-character copy loop of `PrintStatement::GenerateCode`. */
  method GeneratePrintCode(expressions: seq<Expr>) returns (r: Result<string>)
    ensures r == PrintCode(expressions)
  {
    if |expressions| < 2 {
      return Err(PrintArityMessage);
    }
    var literal := ToString(expressions[1]);
    var code := "std::cout << \"";
    for i := 0 to |literal|
      invariant code == "std::cout << \"" + literal[..i]
    {
      code := code + [literal[i]];
    }
    assert literal[..|literal|] == literal;
    code := code + "\" << std::endl;\n";
    return Ok(code);
  }

  /** The `GenerateCode` of every statement kind. */
  function Code(s: Statement): (r: Result<string>)
    ensures s.Comment? || s.Main? ==> r.Ok?
    ensures s.Let? ==> (r.Ok? <==> s.value.Hex?)
    ensures s.Def? ==> (r.Ok? <==> Lowerable(s.body))
    ensures s.Print? ==> (r.Ok? <==> |s.expressions| >= 2)
  {
    match s
    case Let(n, v) => LetCode(n, v)
    case Def(f, ps, b) => DefCode(f, ps, b)
    case Main(f, args) => Ok(MainCode(f, args))
    case Comment(t) => Ok(CommentCode(t))
    case Print(exprs) => PrintCode(exprs)
  }

  /** The virtual `GenerateCode` call, with the print statement's copy loop. */
  method GenerateCode(s: Statement) returns (r: Result<string>)
    ensures r == Code(s)
  {
    if s.Print? {
      r := GeneratePrintCode(s.expressions);
    } else {
      r := Code(s);
    }
  }

  // ----- Properties of the generated code -----

  /** The print code holds the payload verbatim between a fixed 14-character head
      and a fixed 16-character tail, so it is 30 characters longer than the payload. */
  lemma {:induction false} PrintCodeLayout(expressions: seq<Expr>)
    requires |expressions| >= 2
    ensures var code := PrintCode(expressions).value;
      var literal := ToString(expressions[1]);
      |code| == |literal| + 30 &&
      code[..14] == "std::cout << \"" &&
      code[14..14 + |literal|] == literal &&
      code[14 + |literal|..] == "\" << std::endl;\n"
  {
    var code := PrintCode(expressions).value;
    var literal := ToString(expressions[1]);
    assert code == "std::cout << \"" + literal + "\" << std::endl;\n";
  }

  /** Only the second expression matters: the first one and everything after the
      second leave the code unchanged. */
  lemma {:induction false} PrintIgnoresOtherExpressions(first: Expr, other: Expr, payload: Expr, rest: seq<Expr>)
    ensures PrintCode([first, payload] + rest) == PrintCode([other, payload])
  {
    assert ([first, payload] + rest)[1] == payload;
  }

  /** The Def code begins with the function's signature line and ends with a
      `return` of the lowered body. */
  lemma {:induction false} DefCodeShape(funcName: string, params: seq<string>, body: Expr)
    requires Lowerable(body)
    ensures var code := DefCode(funcName, params, body).value;
      var head := "std::vector<uint8_t> " + funcName + "(";
      var tail := "  return " + Lower(body).value + ";\n}\n";
      StartsWith(code, head) && |tail| <= |code| && code[|code| - |tail|..] == tail
  {
    var code := DefCode(funcName, params, body).value;
    var head := "std::vector<uint8_t> " + funcName + "(";
    var middle := Join(ParamDecls(params), ", ") + ") {\n";
    var tail := "  return " + Lower(body).value + ";\n}\n";
    assert Signature(funcName, params) == head + middle;
    assert ReturnLine(Lower(body).value) + "}\n" == tail;
    assert code == head + middle + tail;
    assert code[..|head|] == head;
  }

  /** With no parameters the signature is "f()", with one it is that parameter's
      declaration, and each further parameter is added after ", ". */
  lemma {:induction false} ParamListExtends(params: seq<string>, p: string)
    ensures Join(ParamDecls([]), ", ") == ""
    ensures Join(ParamDecls([p]), ", ") == ParamDecl(p)
    ensures params != [] ==>
      Join(ParamDecls(params + [p]), ", ") == Join(ParamDecls(params), ", ") + ", " + ParamDecl(p)
  {
    if params != [] {
      assert ParamDecls(params + [p]) == ParamDecls(params) + ParamDecls([p]);
      JoinAppend(ParamDecls(params), ParamDecls([p]), ", ");
    }
  }

  // ----- Expectations of src/unit_tests/statement/statement_tests.cpp -----

  lemma LetExample()
    ensures Code(Let("A", Hex("0x10"))) == Ok("std::vector<uint8_t> A = {0x10};\n")
  {
    assert "std::vector<uint8_t> " + "A" == "std::vector<uint8_t> A";
    assert "std::vector<uint8_t> A" + " = {" == "std::vector<uint8_t> A = {";
    assert "std::vector<uint8_t> A = {" + "0x10" == "std::vector<uint8_t> A = {0x10";
    assert "std::vector<uint8_t> A = {0x10" + "};\n" == "std::vector<uint8_t> A = {0x10};\n";
  }

  lemma LetMultiByteExample()
    ensures Code(Let("result", Hex("0xDEADBEEF"))) == Ok("std::vector<uint8_t> result = {0xDEADBEEF};\n")
  {
    assert "std::vector<uint8_t> " + "result" == "std::vector<uint8_t> result";
    assert "std::vector<uint8_t> result" + " = {" == "std::vector<uint8_t> result = {";
    assert "std::vector<uint8_t> result = {" + "0xDEADBEEF" == "std::vector<uint8_t> result = {0xDEADBEEF";
    assert "std::vector<uint8_t> result = {0xDEADBEEF" + "};\n" == "std::vector<uint8_t> result = {0xDEADBEEF};\n";
  }

  /** "* 0x10 _a" lowers to a `multiply_vectors` call. */
  lemma LowerMultiplyExample()
    ensures Lower(Op("*", Hex("0x10"), Param("_a"))) == Ok("multiply_vectors({0x10}, _a)")
  {
    assert "{" + "0x10" == "{0x10";
    assert "{0x10" + "}" == "{0x10}";
    assert "multiply_vectors" + "(" == "multiply_vectors(";
    assert "multiply_vectors(" + "{0x10}" == "multiply_vectors({0x10}";
    assert "multiply_vectors({0x10}" + ", " == "multiply_vectors({0x10}, ";
    assert "multiply_vectors({0x10}, " + "_a" == "multiply_vectors({0x10}, _a";
    assert "multiply_vectors({0x10}, _a" + ")" == "multiply_vectors({0x10}, _a)";
    assert Lower(Op("*", Hex("0x10"), Param("_a"))).value == "multiply_vectors({0x10}, _a)";
  }

  /** "+ 0x01 0x02" lowers to an `add_vectors` call. */
  lemma LowerAddExample()
    ensures Lower(Op("+", Hex("0x01"), Hex("0x02"))) == Ok("add_vectors({0x01}, {0x02})")
  {
    assert "{" + "0x01" == "{0x01";
    assert "{0x01" + "}" == "{0x01}";
    assert "{" + "0x02" == "{0x02";
    assert "{0x02" + "}" == "{0x02}";
    assert "add_vectors" + "(" == "add_vectors(";
    assert "add_vectors(" + "{0x01}" == "add_vectors({0x01}";
    assert "add_vectors({0x01}" + ", " == "add_vectors({0x01}, ";
    assert "add_vectors({0x01}, " + "{0x02}" == "add_vectors({0x01}, {0x02}";
    assert "add_vectors({0x01}, {0x02}" + ")" == "add_vectors({0x01}, {0x02})";
    assert Lower(Op("+", Hex("0x01"), Hex("0x02"))).value == "add_vectors({0x01}, {0x02})";
  }

  /** "* + 0x01 0x02 _a" lowers to nested helper calls. */
  lemma LowerNestedExample()
    ensures Lower(Op("*", Op("+", Hex("0x01"), Hex("0x02")), Param("_a"))) ==
      Ok("multiply_vectors(" + "add_vectors({0x01}, {0x02})" + ", _a)")
  {
    LowerAddExample();
    LowerOperator("*", Op("+", Hex("0x01"), Hex("0x02")), Param("_a"));
    var call := "multiply_vectors(" + "add_vectors({0x01}, {0x02})";
    assert "multiply_vectors" + "(" == "multiply_vectors(";
    assert call + ", " + "_a" + ")" == call + ", _a)";
  }

  /** "+ _a _b" lowers to a call on the bare parameter names. */
  lemma LowerParametersExample()
    ensures Lower(Op("+", Param("_a"), Param("_b"))) == Ok("add_vectors(_a, _b)")
  {
    assert "add_vectors" + "(" == "add_vectors(";
    assert "add_vectors(" + "_a" == "add_vectors(_a";
    assert "add_vectors(_a" + ", " == "add_vectors(_a, ";
    assert "add_vectors(_a, " + "_b" == "add_vectors(_a, _b";
    assert "add_vectors(_a, _b" + ")" == "add_vectors(_a, _b)";
    assert Lower(Op("+", Param("_a"), Param("_b"))).value == "add_vectors(_a, _b)";
  }

  /** One parameter is declared as a constant reference to a byte vector. */
  lemma OneParameter()
    ensures Join(ParamDecls(["_a"]), ", ") == "const std::vector<uint8_t>& _a"
  {
    assert ParamDecls(["_a"]) == [ParamDecl("_a")];
  }

  lemma IdentitySignature()
    ensures Signature("identity", ["_a"]) ==
      "std::vector<uint8_t> identity(" + "const std::vector<uint8_t>& _a" + ") {\n"
  {
    OneParameter();
    assert "std::vector<uint8_t> " + "identity" + "(" == "std::vector<uint8_t> identity(";
  }

  lemma DoubleSignature()
    ensures Signature("double", ["_a"]) ==
      "std::vector<uint8_t> double(" + "const std::vector<uint8_t>& _a" + ") {\n"
  {
    OneParameter();
    assert "std::vector<uint8_t> " + "double" + "(" == "std::vector<uint8_t> double(";
  }

  lemma CalcSignature()
    ensures Signature("calc", ["_a"]) ==
      "std::vector<uint8_t> calc(" + "const std::vector<uint8_t>& _a" + ") {\n"
  {
    OneParameter();
    assert "std::vector<uint8_t> " + "calc" + "(" == "std::vector<uint8_t> calc(";
  }

  /** Two parameters are separated by ", ". */
  lemma AddSignature()
    ensures Signature("add", ["_a", "_b"]) ==
      "std::vector<uint8_t> add(" +
      ("const std::vector<uint8_t>& _a" + ", " + "const std::vector<uint8_t>& _b") + ") {\n"
  {
    assert ParamDecls(["_a", "_b"]) == [ParamDecl("_a"), ParamDecl("_b")];
    assert ParamDecls(["_a", "_b"])[1..] == [ParamDecl("_b")];
    assert "std::vector<uint8_t> " + "add" + "(" == "std::vector<uint8_t> add(";
  }

  lemma GetValueSignature()
    ensures Signature("get_value", []) == "std::vector<uint8_t> get_value(" + ") {\n"
  {
    assert "std::vector<uint8_t> " + "get_value" + "(" == "std::vector<uint8_t> get_value(";
  }

  /** "def identity _a => _a". */
  lemma DefIdentityExample()
    ensures Code(Def("identity", ["_a"], Param("_a"))) ==
      Ok(("std::vector<uint8_t> identity(" + "const std::vector<uint8_t>& _a" + ") {\n") +
         ("  return " + "_a" + ";\n") +
         "}\n")
  {
    IdentitySignature();
  }

  /** "def double _a => * 0x10 _a". */
  lemma DefMultiplyExample()
    ensures Code(Def("double", ["_a"], Op("*", Hex("0x10"), Param("_a")))) ==
      Ok(("std::vector<uint8_t> double(" + "const std::vector<uint8_t>& _a" + ") {\n") +
         ("  return " + "multiply_vectors({0x10}, _a)" + ";\n") +
         "}\n")
  {
    DoubleSignature();
    LowerMultiplyExample();
  }

  /** "def calc _a => * + 0x01 0x02 _a". */
  lemma DefNestedExample()
    ensures Code(Def("calc", ["_a"], Op("*", Op("+", Hex("0x01"), Hex("0x02")), Param("_a")))) ==
      Ok(("std::vector<uint8_t> calc(" + "const std::vector<uint8_t>& _a" + ") {\n") +
         ("  return " + ("multiply_vectors(" + "add_vectors({0x01}, {0x02})" + ", _a)") + ";\n") +
         "}\n")
  {
    CalcSignature();
    LowerNestedExample();
  }

  /** "def add _a _b => + _a _b". */
  lemma DefTwoParametersExample()
    ensures Code(Def("add", ["_a", "_b"], Op("+", Param("_a"), Param("_b")))) ==
      Ok(("std::vector<uint8_t> add(" +
          ("const std::vector<uint8_t>& _a" + ", " + "const std::vector<uint8_t>& _b") + ") {\n") +
         ("  return " + "add_vectors(_a, _b)" + ";\n") +
         "}\n")
  {
    AddSignature();
    LowerParametersExample();
  }

  /** "def get_value => 0x42": no parameters give "()". */
  lemma DefNoParametersExample()
    ensures Code(Def("get_value", [], Hex("0x42"))) ==
      Ok(("std::vector<uint8_t> get_value(" + ") {\n") +
         ("  return " + "{0x42}" + ";\n") +
         "}\n")
  {
    GetValueSignature();
    assert "{" + "0x42" + "}" == "{0x42}";
  }

  /** "main double A". */
  lemma MainOneArgumentExample()
    ensures Code(Main("double", ["A"])) == Ok("auto result = double(A);\n" + "print_vector(std::cout, result);\n")
  {
    assert "auto result = " + "double" == "auto result = double";
    assert "auto result = double" + "(" == "auto result = double(";
    assert "auto result = double(" + "A" == "auto result = double(A";
    assert "auto result = double(A" + ");\n" == "auto result = double(A);\n";
    assert Code(Main("double", ["A"])).value == "auto result = double(A);\n" + "print_vector(std::cout, result);\n";
  }

  /** "main compute A B C": arguments are separated by ", ". */
  lemma MainThreeArgumentsExample()
    ensures Code(Main("compute", ["A", "B", "C"])) == Ok("auto result = compute(A, B, C);\n" + "print_vector(std::cout, result);\n")
  {
    assert ["A", "B", "C"][1..] == ["B", "C"];
    assert ["B", "C"][1..] == ["C"];
    assert Join(["A", "B", "C"], ", ") == "A, B, C";
    assert "auto result = " + "compute" == "auto result = compute";
    assert "auto result = compute" + "(" == "auto result = compute(";
    assert "auto result = compute(" + "A, B, C" == "auto result = compute(A, B, C";
    assert "auto result = compute(A, B, C" + ");\n" == "auto result = compute(A, B, C);\n";
    assert Code(Main("compute", ["A", "B", "C"])).value == "auto result = compute(A, B, C);\n" + "print_vector(std::cout, result);\n";
  }

  /** "main get_value": no arguments give "()". */
  lemma MainNoArgumentsExample()
    ensures Code(Main("get_value", [])) == Ok("auto result = get_value();\n" + "print_vector(std::cout, result);\n")
  {
    assert "auto result = " + "get_value" == "auto result = get_value";
    assert "auto result = get_value" + "(" == "auto result = get_value(";
    assert "auto result = get_value(" + ");\n" == "auto result = get_value();\n";
    assert Code(Main("get_value", [])).value == "auto result = get_value();\n" + "print_vector(std::cout, result);\n";
  }

  /** Statements generate independently: the code of let, def and main in sequence is
      the concatenation of their codes. */
  lemma CompleteProgramExample()
    ensures Code(Let("A", Hex("0x10"))).value + Code(Def("double", ["_a"], Op("*", Hex("0x10"), Param("_a")))).value +
            Code(Main("double", ["A"])).value ==
      "std::vector<uint8_t> A = {0x10};\n" +
      (("std::vector<uint8_t> double(" + "const std::vector<uint8_t>& _a" + ") {\n") +
       ("  return " + "multiply_vectors({0x10}, _a)" + ";\n") +
       "}\n") +
      ("auto result = double(A);\n" + "print_vector(std::cout, result);\n")
  {
    LetExample();
    DefMultiplyExample();
    MainOneArgumentExample();
  }
}
