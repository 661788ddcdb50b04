/** The legacy pipeline: the line parser of src/compiler/parser.cpp, the byte-string
    `PrintStatement` of src/compiler/statement.cpp and the program assembly of
    src/compiler/compiler.cpp. It reads each line as a whole, with no lexer: a comment
    or a print of the characters after "print". */
module Legacy {
  import opened Wrappers
  import opened Text

  const ProgramStart := "{boyo_program_start}"
  const ProgramEnd := "{boyo_program_end}"
  const InvalidLineMessage := "Invalid line: "

  /** A comment keeps its whole line, "//" included; a print keeps its bytes unchanged. */
  datatype Statement = Comment(line: string) | Print(bytes: seq<Byte>)

  /** `static_cast<std::uint8_t>` of a character: its code modulo 256. */
  function CharByte(c: char): Byte {
    (c as int) % 256
  }

  /** `static_cast<char>` of a byte. */
  function ByteChar(b: Byte): char {
    b as char
  }

  function Bytes(s: string): (r: seq<Byte>)
    ensures |r| == |s|
  {
    seq(|s|, i requires 0 <= i < |s| => CharByte(s[i]))
  }

  function Chars(bytes: seq<Byte>): (r: string)
    ensures |r| == |bytes|
  {
    seq(|bytes|, i requires 0 <= i < |bytes| => ByteChar(bytes[i]))
  }

  // ----- Parse -----

  /** One non-empty line: the "//" test comes before the "print" test. */
  function LineStatement(line: string): Result<Statement> {
    if StartsWith(line, "//") then Ok(Comment(line))
    else if StartsWith(line, "print") then Ok(Print(Bytes(line[5..])))
    else Err(InvalidLineMessage + line)
  }

  /** `Parser::Parse`: empty lines are skipped, every other line gives one statement
      in order, and an invalid line stops the parse. */
  function Parsed(lines: seq<string>): Result<seq<Statement>>
    decreases |lines|
  {
    if lines == [] then Ok([])
    else
      var before :- Parsed(lines[..|lines| - 1]);
      var line := lines[|lines| - 1];
      if line == [] then Ok(before)
      else
        var s :- LineStatement(line);
        Ok(before + [s])
  }

  method Parse(lines: seq<string>) returns (r: Result<seq<Statement>>)
    ensures r == Parsed(lines)
  {
    var statements: seq<Statement> := [];
    for n := 0 to |lines|
      invariant Parsed(lines[..n]) == Ok(statements)
    {
      assert lines[..n + 1][..n] == lines[..n];
      var line := lines[n];
      if line == [] {
        continue;
      }
      if StartsWith(line, "//") {
        statements := statements + [Comment(line)];
      } else if StartsWith(line, "print") {
        var byteString := line[5..];
        var byteVector: seq<Byte> := [];
        for j := 0 to |byteString|
          invariant byteVector == Bytes(byteString)[..j]
        {
          byteVector := byteVector + [CharByte(byteString[j])];
        }
        assert byteVector == Bytes(byteString);
        statements := statements + [Print(byteVector)];
      } else {
        ErrorAborts(lines, n + 1);
        return Err(InvalidLineMessage + line);
      }
    }
    assert lines[..|lines|] == lines;
    return Ok(statements);
  }

  lemma {:induction false} ErrorAborts(lines: seq<string>, n: nat)
    requires n <= |lines| && Parsed(lines[..n]).Err?
    ensures Parsed(lines) == Parsed(lines[..n])
    decreases |lines|
  {
    if n < |lines| {
      var init := lines[..|lines| - 1];
      assert init[..n] == lines[..n];
      ErrorAborts(init, n);
    } else {
      assert lines[..n] == lines;
    }
  }

  function NonEmpty(lines: seq<string>): (r: seq<string>)
    ensures forall k :: 0 <= k < |r| ==> r[k] != []
    decreases |lines|
  {
    if lines == [] then []
    else NonEmpty(lines[..|lines| - 1]) + (if lines[|lines| - 1] == [] then [] else [lines[|lines| - 1]])
  }

  /** The parse succeeds exactly when every non-empty line is valid, and then gives
      one statement for each non-empty line, in order. */
  lemma {:induction false} OneStatementPerLine(lines: seq<string>)
    ensures Parsed(lines).Ok? <==> forall k :: 0 <= k < |NonEmpty(lines)| ==> LineStatement(NonEmpty(lines)[k]).Ok?
    ensures Parsed(lines).Ok? ==>
      |Parsed(lines).value| == |NonEmpty(lines)| &&
      forall k :: 0 <= k < |NonEmpty(lines)| ==> Parsed(lines).value[k] == LineStatement(NonEmpty(lines)[k]).value
    decreases |lines|
  {
    if lines != [] {
      var init := lines[..|lines| - 1];
      var last := lines[|lines| - 1];
      OneStatementPerLine(init);
      var ne := NonEmpty(init);
      if last == [] {
        assert NonEmpty(lines) == ne;
      } else {
        assert NonEmpty(lines) == ne + [last];
        assert forall k :: 0 <= k < |ne| ==> NonEmpty(lines)[k] == ne[k];
        assert NonEmpty(lines)[|ne|] == last;
      }
    }
  }

  /** A line starting with "//" is a comment even when "print" follows. */
  lemma {:induction false} CommentBeforePrint(rest: string)
    ensures LineStatement("//print" + rest) == Ok(Comment("//print" + rest))
  {
    assert ("//print" + rest)[..2] == "//";
  }

  /** Bytes of characters below 256 turn back into the same characters. */
  lemma {:induction false} CharsOfBytes(s: string)
    requires forall k :: 0 <= k < |s| ==> s[k] as int < 256
    ensures Chars(Bytes(s)) == s
  {
  }

  /** The print payload starts right after the five letters of "print", so the space
      that separates it from the keyword is kept. */
  lemma PrintKeepsSeparator()
    ensures LineStatement("print Hello World") == Ok(Print(Bytes(" Hello World")))
  {
    assert "print Hello World"[..2] == "pr";
    assert "print Hello World"[..5] == "print";
    assert "print Hello World"[5..] == " Hello World";
  }

  // ----- Generating code -----

  function PrintCode(bytes: seq<Byte>): string {
    "std::cout << \"" + Chars(bytes) + "\" << std::endl;\n"
  }

  /** The `GenerateCode` of the two statement kinds. */
  function Code(s: Statement): string {
    match s
    case Comment(line) => "// " + line + "\n"
    case Print(bytes) => PrintCode(bytes)
  }

  method GenerateCode(s: Statement) returns (code: string)
    ensures code == Code(s)
  {
    match s
    case Comment(line) =>
      code := "// " + line + "\n";
    case Print(bytes) =>
      code := "std::cout << \"";
      for i := 0 to |bytes|
        invariant code == "std::cout << \"" + Chars(bytes)[..i]
      {
        code := code + [ByteChar(bytes[i])];
      }
      assert Chars(bytes)[..|bytes|] == Chars(bytes);
      code := code + "\" << std::endl;\n";
  }

  /** The bytes appear in order between a fixed head and a fixed tail, 30 characters in
      all; the code always ends in a newline. */
  lemma {:induction false} PrintCodeLayout(bytes: seq<Byte>)
    ensures |PrintCode(bytes)| == |bytes| + 30
    ensures PrintCode(bytes)[..14] == "std::cout << \""
    ensures forall k :: 0 <= k < |bytes| ==> PrintCode(bytes)[14 + k] == bytes[k] as char
    ensures PrintCode(bytes)[|PrintCode(bytes)| - 1] == '\n'
  {
    var code := PrintCode(bytes);
    assert code == "std::cout << \"" + Chars(bytes) + "\" << std::endl;\n";
  }

  /** A print line becomes code that prints the characters after "print" verbatim. */
  lemma {:induction false} PrintLineCode(payload: string)
    requires forall k :: 0 <= k < |payload| ==> payload[k] as int < 256
    ensures Parsed(["print" + payload]).Ok?
    ensures Parsed(["print" + payload]).value == [Print(Bytes(payload))]
    ensures Code(Print(Bytes(payload))) == "std::cout << \"" + payload + "\" << std::endl;\n"
  {
    var line := "print" + payload;
    assert line[..5] == "print";
    assert line[..2] == "pr";
    assert line[5..] == payload;
    var lines: seq<string> := [line];
    assert lines[..0] == [];
    CharsOfBytes(payload);
  }

  // ----- The program -----

  /** `GenerateProgramCode`: every statement's code, in order. */
  function ProgramCode(stmts: seq<Statement>): string {
    if stmts == [] then "" else Code(stmts[0]) + ProgramCode(stmts[1..])
  }

  method GenerateProgramCode(stmts: seq<Statement>) returns (programCode: string)
    ensures programCode == ProgramCode(stmts)
  {
    programCode := "";
    for i := 0 to |stmts|
      invariant programCode == ProgramCode(stmts[..i])
    {
      assert stmts[..i + 1] == stmts[..i] + [stmts[i]];
      ProgramCodeConcat(stmts[..i], [stmts[i]]);
      ProgramCodeOne(stmts[i]);
      var code := GenerateCode(stmts[i]);
      programCode := programCode + code;
    }
    assert stmts[..|stmts|] == stmts;
  }

  lemma {:induction false} ProgramCodeOne(s: Statement)
    ensures ProgramCode([s]) == Code(s)
  {
    assert [s][1..] == [];
  }

  /** The code of two blocks of statements is the code of the first, then of the second. */
  lemma {:induction false} ProgramCodeConcat(a: seq<Statement>, b: seq<Statement>)
    ensures ProgramCode(a + b) == ProgramCode(a) + ProgramCode(b)
  {
    if a == [] {
      assert a + b == b;
    } else {
      assert (a + b)[0] == a[0];
      assert (a + b)[1..] == a[1..] + b;
      ProgramCodeConcat(a[1..], b);
      var c, p, q := Code(a[0]), ProgramCode(a[1..]), ProgramCode(b);
      assert c + (p + q) == (c + p) + q;
    }
  }

  /** `SubstituteGeneratedCode`: the first start marker becomes the code, then the
      first end marker of the updated text is deleted. */
  function Substituted(template: string, code: string): string {
    ReplaceFirst(ReplaceFirst(template, ProgramStart, code), ProgramEnd, "")
  }

  method SubstituteGeneratedCode(mainFunction: string, generatedCode: string) returns (result: string)
    ensures result == Substituted(mainFunction, generatedCode)
  {
    result := mainFunction;
    var startPos := IndexOf(result, ProgramStart);
    if startPos.Some? {
      result := result[..startPos.value] + generatedCode + result[startPos.value + |ProgramStart|..];
    }
    var endPos := IndexOf(result, ProgramEnd);
    if endPos.Some? {
      result := result[..endPos.value] + "" + result[endPos.value + |ProgramEnd|..];
    }
  }

  /** On a template with a start marker followed by an end marker, the code takes the
      place of the first and the second disappears; the text around them, including
      the indentation before the end marker, is kept. */
  lemma {:induction false} SpliceIntoTemplate(head: string, middle: string, tail: string, code: string)
    requires !Contains(head, ProgramStart)
    requires !Contains(head + code + middle, ProgramEnd)
    ensures Substituted(head + ProgramStart + middle + ProgramEnd + tail, code) == head + code + middle + tail
  {
    Regroup(head, ProgramStart, middle, ProgramEnd, tail);
    ReplaceStart(head, middle + ProgramEnd + tail, code);
    Regroup(head, code, middle, ProgramEnd, tail);
    DeleteEnd(head + code + middle, tail);
  }

  lemma {:induction false} ReplaceStart(head: string, rest: string, code: string)
    requires !Contains(head, ProgramStart)
    ensures ReplaceFirst(head + ProgramStart + rest, ProgramStart, code) == head + code + rest
  {
    MarkersDoNotOverlap();
    ReplaceMarker(head, ProgramStart, rest, code);
  }

  lemma {:induction false} DeleteEnd(head: string, tail: string)
    requires !Contains(head, ProgramEnd)
    ensures ReplaceFirst(head + ProgramEnd + tail, ProgramEnd, "") == head + tail
  {
    MarkersDoNotOverlap();
    ReplaceMarker(head, ProgramEnd, tail, "");
    assert head + "" + tail == head + tail;
  }

  lemma MarkersDoNotOverlap()
    ensures LoneFirst(ProgramStart) && LoneFirst(ProgramEnd)
  {
  }

  /** Without the markers the template is returned unchanged. */
  lemma {:induction false} NoMarkersNoChange(template: string, code: string)
    requires !Contains(template, ProgramStart) && !Contains(template, ProgramEnd)
    ensures Substituted(template, code) == template
  {
  }

  /** The template and code of src/unit_tests/compiler/compiler_tests.cpp:26-44 through
      the legacy splice, which deletes the end marker. */
  lemma SubstitutionExample()
    ensures Substituted("\n    #include <iostream>\n    int main() {\n      " + ProgramStart + "\n      " + ProgramEnd + "\n    }\n  ",
                        "std::cout << \"Hello World\" << std::endl;\n")
         == "\n    #include <iostream>\n    int main() {\n      " + "std::cout << \"Hello World\" << std::endl;\n" +
            "\n      " + "\n    }\n  "
  {
    var opening := "\n    #include <iostream>\n    int main() ";
    var brace := "{\n      ";
    var head := opening + brace;
    var code := "std::cout << \"Hello World\" << std::endl;\n";
    var middle := "\n      ";
    assert head == "\n    #include <iostream>\n    int main() {\n      ";
    assert ProgramStart[..2] == "{b" && ProgramEnd[..2] == "{b";
    assert LacksFrom(opening, '{', 0) && LacksFrom(brace, '{', 1);
    assert LacksFrom(code, '{', 0) && LacksFrom(middle, '{', 0);
    var after := brace + code + middle;
    LacksConcat(brace, code, '{', 1);
    LacksConcat(brace + code, middle, '{', 1);
    MissingAfterLoneChar(opening, brace, ProgramStart);
    RegroupFour(opening, brace, code, middle);
    MissingAfterLoneChar(opening, after, ProgramEnd);
    SpliceIntoTemplate(head, middle, "\n    }\n  ", code);
  }
}
