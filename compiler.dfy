/** Program assembly of src/compiler/compiler/compiler.cpp: the statements' code is
    sorted into a global region (variables and functions) and an entry region (the
    body of `main`), joined at a split marker, and spliced into the template at its
    start and end markers. The byte-vector helpers the template defines are given a
    reference semantics here. */
module Compiler {
  import opened Wrappers
  import opened Text
  import Expressions
  import Statements

  type Statement = Statements.Statement

  const ProgramStart := "{boyo_program_start}"
  const ProgramEnd := "{boyo_program_end}"
  const SplitPoint := "{boyo_split_point}"

  // ----- The two regions -----

  /** The global and entry code of `GenerateProgramCode`'s loop: a main statement's
      code goes to the entry region, every other statement's to the global region;
      the first statement whose code fails makes the whole result fail. */
  function Regions(stmts: seq<Statement>): Result<(string, string)>
    decreases |stmts|
  {
    if stmts == [] then Ok(("", ""))
    else
      var before :- Regions(stmts[..|stmts| - 1]);
      var last := stmts[|stmts| - 1];
      var code :- Statements.Code(last);
      if last.Main? then Ok((before.0, before.1 + code)) else Ok((before.0 + code, before.1))
  }

  /** `GenerateProgramCode`: global + "{boyo_split_point}" + entry. */
  function ProgramCode(stmts: seq<Statement>): Result<string> {
    var regions :- Regions(stmts);
    Ok(regions.0 + SplitPoint + regions.1)
  }

  method GenerateProgramCode(stmts: seq<Statement>) returns (r: Result<string>)
    ensures r == ProgramCode(stmts)
  {
    var globalCode := "";
    var mainCode := "";
    for i := 0 to |stmts|
      invariant Regions(stmts[..i]) == Ok((globalCode, mainCode))
    {
      assert stmts[..i + 1][..i] == stmts[..i];
      var code := Statements.GenerateCode(stmts[i]);
      if code.Err? {
        RegionsErrorPersists(stmts, i + 1);
        return Err(code.message);
      }
      if stmts[i].Main? {
        mainCode := mainCode + code.value;
      } else {
        globalCode := globalCode + code.value;
      }
    }
    assert stmts[..|stmts|] == stmts;
    return Ok(globalCode + SplitPoint + mainCode);
  }

  lemma {:induction false} RegionsErrorPersists(stmts: seq<Statement>, n: nat)
    requires n <= |stmts| && Regions(stmts[..n]).Err?
    ensures Regions(stmts) == Regions(stmts[..n])
    decreases |stmts|
  {
    if n < |stmts| {
      var init := stmts[..|stmts| - 1];
      assert init[..n] == stmts[..n];
      RegionsErrorPersists(init, n);
    } else {
      assert stmts[..n] == stmts;
    }
  }

  // ----- A reference for the regions: filter, then concatenate -----

  /** The code of the statements one after the other; the first failure is the result. */
  function Concatenated(stmts: seq<Statement>): Result<string>
    decreases |stmts|
  {
    if stmts == [] then Ok("")
    else
      var before :- Concatenated(stmts[..|stmts| - 1]);
      var code :- Statements.Code(stmts[|stmts| - 1]);
      Ok(before + code)
  }

  function Mains(stmts: seq<Statement>): (r: seq<Statement>)
    decreases |stmts|
  {
    if stmts == [] then []
    else Mains(stmts[..|stmts| - 1]) + (if stmts[|stmts| - 1].Main? then [stmts[|stmts| - 1]] else [])
  }

  function Others(stmts: seq<Statement>): (r: seq<Statement>)
    decreases |stmts|
  {
    if stmts == [] then []
    else Others(stmts[..|stmts| - 1]) + (if stmts[|stmts| - 1].Main? then [] else [stmts[|stmts| - 1]])
  }

  /** The concatenation succeeds exactly when every statement's code does. */
  lemma {:induction false} ConcatenatedOk(stmts: seq<Statement>)
    ensures Concatenated(stmts).Ok? <==> forall k :: 0 <= k < |stmts| ==> Statements.Code(stmts[k]).Ok?
    decreases |stmts|
  {
    if stmts != [] {
      var init := stmts[..|stmts| - 1];
      ConcatenatedOk(init);
      assert forall k :: 0 <= k < |init| ==> init[k] == stmts[k];
    }
  }

  lemma {:induction false} ConcatenatedSnoc(stmts: seq<Statement>, s: Statement)
    ensures Concatenated(stmts + [s]) ==
      (if Concatenated(stmts).Err? then Concatenated(stmts)
       else if Statements.Code(s).Err? then Err(Statements.Code(s).message)
       else Ok(Concatenated(stmts).value + Statements.Code(s).value))
  {
    assert (stmts + [s])[..|stmts|] == stmts;
  }

  /** The entry region is the code of the main statements in order, and the global
      region that of all the others in order. */
  lemma {:induction false} RegionsPartition(stmts: seq<Statement>)
    ensures Regions(stmts).Ok? <==> Concatenated(stmts).Ok?
    ensures Regions(stmts).Ok? ==>
      Concatenated(Others(stmts)).Ok? && Concatenated(Mains(stmts)).Ok? &&
      Regions(stmts).value == (Concatenated(Others(stmts)).value, Concatenated(Mains(stmts)).value)
    decreases |stmts|
  {
    if stmts != [] {
      var init := stmts[..|stmts| - 1];
      var last := stmts[|stmts| - 1];
      RegionsPartition(init);
      if last.Main? {
        assert Others(stmts) == Others(init) + [];
        assert Others(init) + [] == Others(init);
        ConcatenatedSnoc(Mains(init), last);
      } else {
        assert Mains(stmts) == Mains(init) + [];
        assert Mains(init) + [] == Mains(init);
        ConcatenatedSnoc(Others(init), last);
      }
    }
  }

  // ----- Splitting the program code, and splicing it into the template -----

  /** The split of `SubstituteGeneratedCode`: before and after the first split marker
      (18 characters), or everything as global code when there is none. */
  function SplitProgramCode(code: string): (r: (string, string))
    ensures |SplitPoint| == 18
    ensures !Contains(code, SplitPoint) ==> r == (code, "")
    ensures forall p: nat :: FirstAt(code, SplitPoint, p) ==> r == (code[..p], code[p + 18..])
  {
    match IndexOf(code, SplitPoint)
    case None => (code, "")
    case Some(p) => (code[..p], code[p + 18..])
  }

  /** Splitting undoes the join of `GenerateProgramCode` whenever the global code
      holds no split marker of its own. */
  lemma {:induction false} SplitRoundTrip(globalCode: string, mainCode: string)
    requires !Contains(globalCode, SplitPoint)
    ensures SplitProgramCode(globalCode + SplitPoint + mainCode) == (globalCode, mainCode)
  {
    MarkersDoNotOverlap();
    FirstOccurrenceAfter(globalCode, SplitPoint, mainCode);
    var code := globalCode + SplitPoint + mainCode;
    assert code[..|globalCode|] == globalCode;
    assert code[|globalCode| + 18..] == mainCode;
  }

  /** `SubstituteGeneratedCode`: the first start marker becomes the global code, then
      the first end marker of the updated text becomes the entry code. */
  function Substituted(template: string, code: string): string {
    var regions := SplitProgramCode(code);
    ReplaceFirst(ReplaceFirst(template, ProgramStart, regions.0), ProgramEnd, regions.1)
  }

  method SubstituteGeneratedCode(mainFunction: string, generatedCode: string) returns (result: string)
    ensures result == Substituted(mainFunction, generatedCode)
  {
    result := mainFunction;
    var globalCode, mainCode;
    var splitPos := IndexOf(generatedCode, SplitPoint);
    if splitPos.Some? {
      globalCode := generatedCode[..splitPos.value];
      mainCode := generatedCode[splitPos.value + 18..];
    } else {
      globalCode := generatedCode;
      mainCode := "";
    }
    var startPos := IndexOf(result, ProgramStart);
    if startPos.Some? {
      result := result[..startPos.value] + globalCode + result[startPos.value + |ProgramStart|..];
    }
    var endPos := IndexOf(result, ProgramEnd);
    if endPos.Some? {
      result := result[..endPos.value] + mainCode + result[endPos.value + |ProgramEnd|..];
    }
  }

  /** On a template with one start marker followed by one end marker, the global code
      takes the place of the first and the entry code that of the second; the text
      around the markers is kept. */
  lemma {:induction false} SpliceIntoTemplate(head: string, middle: string, tail: string, globalCode: string, mainCode: string)
    requires !Contains(head, ProgramStart)
    requires !Contains(head + globalCode + middle, ProgramEnd)
    requires !Contains(globalCode, SplitPoint)
    ensures Substituted(head + ProgramStart + middle + ProgramEnd + tail, globalCode + SplitPoint + mainCode)
         == head + globalCode + middle + mainCode + tail
  {
    SplitRoundTrip(globalCode, mainCode);
    ReplaceBothMarkers(head, middle, tail, globalCode, mainCode);
  }

  /** The two replacements of `SubstituteGeneratedCode` on a template with a start
      marker followed by an end marker. */
  lemma {:induction false} ReplaceBothMarkers(head: string, middle: string, tail: string, globalCode: string, mainCode: string)
    requires !Contains(head, ProgramStart)
    requires !Contains(head + globalCode + middle, ProgramEnd)
    ensures ReplaceFirst(ReplaceFirst(head + ProgramStart + middle + ProgramEnd + tail, ProgramStart, globalCode), ProgramEnd, mainCode)
         == head + globalCode + middle + mainCode + tail
  {
    MarkersDoNotOverlap();
    Regroup(head, ProgramStart, middle, ProgramEnd, tail);
    ReplaceMarker(head, ProgramStart, middle + ProgramEnd + tail, globalCode);
    Regroup(head, globalCode, middle, ProgramEnd, tail);
    ReplaceMarker(head + globalCode + middle, ProgramEnd, tail, mainCode);
  }

  /** Generated code without a split marker is all global: it takes the start
      marker's place, and the end marker is replaced by nothing. */
  lemma {:induction false} SpliceWithoutSplit(head: string, middle: string, tail: string, code: string)
    requires !Contains(head, ProgramStart)
    requires !Contains(head + code + middle, ProgramEnd)
    requires !Contains(code, SplitPoint)
    ensures Substituted(head + ProgramStart + middle + ProgramEnd + tail, code) == head + code + middle + tail
  {
    var template := head + ProgramStart + middle + ProgramEnd + tail;
    calc {
      Substituted(template, code);
    == { AllGlobal(template, code); }
      ReplaceFirst(ReplaceFirst(template, ProgramStart, code), ProgramEnd, "");
    == { ReplaceBothMarkers(head, middle, tail, code, ""); }
      head + code + middle + "" + tail;
    == { assert middle + "" == middle; }
      head + code + middle + tail;
    }
  }

  /** Without a split marker the entry code is empty. */
  lemma AllGlobal(template: string, code: string)
    requires !Contains(code, SplitPoint)
    ensures Substituted(template, code) == ReplaceFirst(ReplaceFirst(template, ProgramStart, code), ProgramEnd, "")
  {
    assert SplitProgramCode(code) == (code, "");
  }

  /** The substitution test of src/unit_tests/compiler/compiler_tests.cpp:26-44: the
      generated code has no split marker, so it replaces the start marker and the
      end marker disappears, leaving the indentation before it. */
  lemma SubstitutionExample()
    ensures Substituted("\n    #include <iostream>\n    int main() {\n      " + ProgramStart + "\n      " + ProgramEnd + "\n    }\n  ",
                        "std::cout << \"Hello World\" << std::endl;\n")
         == "\n    #include <iostream>\n    int main() {\n      " + "std::cout << \"Hello World\" << std::endl;\n" +
            "\n      " + "\n    }\n  "
  {
    var opening := "\n    #include <iostream>\n    int main() ";
    var brace := "{\n      ";
    var head := opening + brace;
    var code := "std::cout << \"Hello World\" << std::endl;\n";
    var middle := "\n      ";
    assert head == "\n    #include <iostream>\n    int main() {\n      ";
    assert ProgramStart[..2] == "{b" && ProgramEnd[..2] == "{b";
    assert LacksFrom(opening, '{', 0) && LacksFrom(brace, '{', 1);
    assert LacksFrom(code, '{', 0) && LacksFrom(middle, '{', 0);
    MissingFirstChar(code, SplitPoint);
    var after := brace + code + middle;
    LacksConcat(brace, code, '{', 1);
    LacksConcat(brace + code, middle, '{', 1);
    MissingAfterLoneChar(opening, brace, ProgramStart);
    RegroupFour(opening, brace, code, middle);
    MissingAfterLoneChar(opening, after, ProgramEnd);
    SpliceWithoutSplit(head, middle, "\n    }\n  ", code);
  }

  lemma MarkersDoNotOverlap()
    ensures LoneFirst(ProgramStart) && LoneFirst(ProgramEnd) && LoneFirst(SplitPoint)
  {
  }

  /** A template without the markers is returned unchanged. */
  lemma {:induction false} NoMarkersNoChange(template: string, code: string)
    requires !Contains(template, ProgramStart) && !Contains(template, ProgramEnd)
    ensures Substituted(template, code) == template
  {
  }

  /** A let statement goes to the global region and a main statement to the entry
      region. */
  lemma AssembledProgramExample()
    ensures ProgramCode([Statements.Let("A", Expressions.Hex("0x10")), Statements.Main("double", ["A"])]) ==
      Ok("std::vector<uint8_t> A = {0x10};\n" + SplitPoint + "auto result = double(A);\n" + "print_vector(std::cout, result);\n")
  {
    var stmts := [Statements.Let("A", Expressions.Hex("0x10")), Statements.Main("double", ["A"])];
    Statements.LetExample();
    Statements.MainOneArgumentExample();
    var letCode := Statements.Code(stmts[0]).value;
    var mainCode := Statements.Code(stmts[1]).value;
    assert stmts[..1] == [stmts[0]];
    assert stmts[..1][..0] == [];
    assert Regions(stmts[..1]) == Ok(("" + letCode, ""));
    assert "" + letCode == letCode && "" + mainCode == mainCode;
    assert Regions(stmts) == Ok((letCode, mainCode));
    assert ProgramCode(stmts).value == letCode + SplitPoint + mainCode;
    assert letCode + SplitPoint + mainCode == letCode + SplitPoint + "auto result = double(A);\n" + "print_vector(std::cout, result);\n";
  }

  // ----- The byte-vector helpers of the template -----

  datatype VectorOp = Add | Subtract | Multiply

  /** The operand read at index `i`: past the end of the vector it is 0. */
  function ByteAt(v: seq<Byte>, i: nat): Byte {
    if i < |v| then v[i] else 0
  }

  /** The `uint8_t` arithmetic of `val_a + val_b`, `val_a - val_b` and `val_a * val_b`:
      computed on `int`, then truncated to 8 bits by `push_back`. */
  function Apply(op: VectorOp, x: Byte, y: Byte): Byte {
    match op
    case Add => (x + y) % 256
    case Subtract => (x - y) % 256
    case Multiply => (x * y) % 256
  }

  function Max(m: nat, n: nat): nat {
    if m < n then n else m
  }

  /** `add_vectors`, `subtract_vectors` and `multiply_vectors`: the shorter operand is
      padded with zeros. */
  function Combined(op: VectorOp, a: seq<Byte>, b: seq<Byte>): seq<Byte> {
    seq(Max(|a|, |b|), i requires 0 <= i => Apply(op, ByteAt(a, i), ByteAt(b, i)))
  }

  /** The index loop the three helpers share. */
  method CombineVectors(op: VectorOp, a: seq<Byte>, b: seq<Byte>) returns (result: seq<Byte>)
    ensures result == Combined(op, a, b)
  {
    result := [];
    var maxSize := Max(|a|, |b|);
    for i := 0 to maxSize
      invariant result == Combined(op, a, b)[..i]
    {
      var valA := if i < |a| then a[i] else 0;
      var valB := if i < |b| then b[i] else 0;
      result := result + [Apply(op, valA, valB)];
    }
  }

  method AddVectors(a: seq<Byte>, b: seq<Byte>) returns (result: seq<Byte>)
    ensures |result| == Max(|a|, |b|)
    ensures forall i :: 0 <= i < |result| ==> result[i] == (ByteAt(a, i) + ByteAt(b, i)) % 256
  {
    result := CombineVectors(Add, a, b);
  }

  method SubtractVectors(a: seq<Byte>, b: seq<Byte>) returns (result: seq<Byte>)
    ensures |result| == Max(|a|, |b|)
    ensures forall i :: 0 <= i < |result| ==> result[i] == (ByteAt(a, i) - ByteAt(b, i)) % 256
  {
    result := CombineVectors(Subtract, a, b);
  }

  method MultiplyVectors(a: seq<Byte>, b: seq<Byte>) returns (result: seq<Byte>)
    ensures |result| == Max(|a|, |b|)
    ensures forall i :: 0 <= i < |result| ==> result[i] == (ByteAt(a, i) * ByteAt(b, i)) % 256
  {
    result := CombineVectors(Multiply, a, b);
  }

  /** `v` zero-padded to `n` bytes. */
  function Padded(v: seq<Byte>, n: nat): seq<Byte> {
    seq(Max(|v|, n), i requires 0 <= i => ByteAt(v, i))
  }

  /** Subtracting what was added gives back the first operand, zero-padded. */
  lemma {:induction false} SubtractUndoesAdd(a: seq<Byte>, b: seq<Byte>)
    ensures Combined(Subtract, Combined(Add, a, b), b) == Padded(a, |b|)
  {
    var s := Combined(Add, a, b);
    var d := Combined(Subtract, s, b);
    forall i | 0 <= i < |d| ensures d[i] == Padded(a, |b|)[i] {
      var x: int, y: int := ByteAt(a, i), ByteAt(b, i);
      assert ByteAt(s, i) == (x + y) % 256;
      ModSubtract(x, y);
    }
  }

  lemma {:induction false} ModSubtract(x: int, y: int)
    requires 0 <= x < 256 && 0 <= y < 256
    ensures ((x + y) % 256 - y) % 256 == x
  {
    if x + y >= 256 {
      assert (x + y) % 256 == x + y - 256;
    }
  }

  /** Addition and multiplication do not depend on the order of the operands. */
  lemma {:induction false} Commutes(op: VectorOp, a: seq<Byte>, b: seq<Byte>)
    requires op != Subtract
    ensures Combined(op, a, b) == Combined(op, b, a)
  {
    var l, r := Combined(op, a, b), Combined(op, b, a);
    forall i | 0 <= i < |l| ensures l[i] == r[i] {
      assert ByteAt(a, i) * ByteAt(b, i) == ByteAt(b, i) * ByteAt(a, i);
    }
  }

  /** Adding the empty vector changes nothing; multiplying by it gives all zeros. */
  lemma {:induction false} EmptyOperand(a: seq<Byte>)
    ensures Combined(Add, a, []) == a
    ensures Combined(Subtract, a, []) == a
    ensures Combined(Multiply, a, []) == seq(|a|, _ => 0)
  {
  }

  /** Wrap-around: 0xff + 0x01 is 0x00, and 0x00 - 0x01 is 0xff. */
  lemma WrapAroundExamples()
    ensures Combined(Add, [0xff], [0x01]) == [0x00]
    ensures Combined(Subtract, [0x00], [0x01]) == [0xff]
    ensures Combined(Multiply, [0x10, 0x02], [0x10]) == [0x00, 0x00]
  {
  }
}
