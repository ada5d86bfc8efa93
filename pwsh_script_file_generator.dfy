/**
 * The PowerShell dialect's parameter block: a `param( ... )` declaration
 * with one mandatory string parameter per path or query parameter, each
 * preceded by its description as a block comment when it has one.
 *
 * The declarations are separated by a comma and an empty line. After the
 * last one the generator deletes the trailing comma in place with a fixed
 * offset that assumes a two-character line terminator; see
 * `AppendParametersAsWritten` and the corrected `AppendParameters`.
 */
module PwshScriptFileGenerator {
  import opened Wrappers
  import opened OpenApi
  import opened StringExtensions
  import opened TextBuffer
  import opened Sequences

  const FileExtension: string := "ps1"

  /** The line breaks inside a declaration come from the source text of its literal, not from the platform. */
  const LiteralBreak: string := "\n"

  const MandatoryLine: string := "   [Parameter(Mandatory=$True)]"

  /** The locations whose parameters become script parameters. */
  function EmittedLocations(): set<Location> {
    {Path, Query}
  }

  function EmittedParameters(op: Operation): (r: seq<Parameter>)
    ensures forall i :: 0 <= i < |r| ==> r[i].location == Some(Path) || r[i].location == Some(Query)
  {
    ParametersAt(op.parameters, EmittedLocations())
  }

  /** `AsVariable`: how a parameter is referenced, `$snake_name`. */
  function AsVariable(name: string): (r: string)
    ensures |r| == |name| + 1 && r[0] == '$'
    ensures r[1..] == ConvertKebabCaseToSnakeCase(name)
    ensures '-' !in r[1..]
    ensures forall i :: 1 <= i < |r| ==> !IsAsciiUpper(r[i])
  {
    "$" + ConvertKebabCaseToSnakeCase(name)
  }

  /** The description as a block comment on a line of its own; nothing without a description. */
  function DescriptionComment(p: Parameter): string {
    if p.description.Some? then "   <# " + p.description.value + " #>" + LiteralBreak else ""
  }

  /** The mandatory annotation and the typed variable. */
  function DeclarationTail(name: string): (r: string)
    ensures |r| > 3 && r[3] == '['
  {
    var r := MandatoryLine + LiteralBreak + "   [String] " + AsVariable(name);
    assert r[3] == MandatoryLine[3];
    r
  }

  /** One declaration as the literal renders it, without the comma that follows it. */
  function Declaration(p: Parameter): string {
    DescriptionComment(p) + DeclarationTail(p.name)
  }

  /**
   * A declaration opens with its description comment exactly when it has
   * a description, and always ends by declaring the parameter's variable.
   */
  lemma DeclarationShape(p: Parameter)
    ensures p.description.Some? <==> StartsWith(Declaration(p), "   <# ")
    ensures p.description.Some? ==> StartsWith(Declaration(p), "   <# " + p.description.value + " #>" + LiteralBreak)
    ensures EndsWith(Declaration(p), MandatoryLine + LiteralBreak + "   [String] " + AsVariable(p.name))
  {
    var head := DescriptionComment(p);
    var tail := DeclarationTail(p.name);
    ConcatEnds(head, tail);
    if p.description.Some? {
      ConcatStarts(head, tail);
      ConcatStarts("   <# ", p.description.value + " #>" + LiteralBreak);
      assert head == "   <# " + (p.description.value + " #>" + LiteralBreak);
      StartsWithPrefix(head + tail, head, "   <# ");
    } else {
      assert head + tail == tail;
      assert "   <# "[3] == '<';
    }
  }

  lemma ConcatStarts(a: string, b: string)
    ensures StartsWith(a + b, a)
  {
    assert (a + b)[..|a|] == a;
  }

  lemma ConcatEnds(a: string, b: string)
    ensures EndsWith(a + b, b)
  {
    assert (a + b)[|a + b| - |b|..] == b;
  }

  lemma StartsWithPrefix(s: string, a: string, b: string)
    requires StartsWith(s, a) && StartsWith(a, b)
    ensures StartsWith(s, b)
  {
    assert s[..|b|] == a[..|b|];
  }

  /** All declarations, in parameter order. */
  function Declarations(ps: seq<Parameter>): (r: seq<string>)
    ensures |r| == |ps|
  {
    Map(Declaration, ps)
  }

  lemma DeclarationAt(ps: seq<Parameter>, i: nat)
    requires i < |ps|
    ensures Declarations(ps)[i] == Declaration(ps[i])
  {
    MapAt(Declaration, ps, i);
  }

  /**
   * The lines appended before the trim: the opening `param(` and, per
   * parameter, its declaration with a comma and an empty line.
   */
  function OpenedLines(ps: seq<Parameter>): (r: seq<string>)
    ensures |r| == 1 + 2 * |ps|
  {
    if ps == [] then ["param("]
    else OpenedLines(ps[..|ps| - 1]) + [Declaration(ps[|ps| - 1]) + ",", ""]
  }

  /** The text before the trim. */
  function Untrimmed(ps: seq<Parameter>, nl: NewLine): string {
    Lines(OpenedLines(ps), nl)
  }

  /** What follows the last declaration: a comma, its terminator and an empty line. */
  function Separator(nl: NewLine): (r: string)
    ensures |r| == 1 + 2 * |nl.Text()| && r[0] == ','
  {
    "," + nl.Text() + nl.Text()
  }

  function Closing(nl: NewLine): string {
    ")" + nl.Text() + nl.Text()
  }

  lemma Regroup(start: string, joined: string, sep: string, decl: string, nl: string)
    requires sep == "," + nl + nl
    ensures start + joined + sep + (decl + ",") + nl + nl == start + (joined + sep + decl) + sep
  {
  }

  lemma DeclarationsSnoc(ps: seq<Parameter>)
    requires ps != []
    ensures Declarations(ps) == Declarations(ps[..|ps| - 1]) + [Declaration(ps[|ps| - 1])]
  {
    var init := ps[..|ps| - 1];
    assert ps == init + [ps[|ps| - 1]];
    MapSnoc(Declaration, init, ps[|ps| - 1]);
  }

  /** Each parameter adds its declaration, a comma, its terminator and an empty line. */
  lemma UntrimmedSnoc(ps: seq<Parameter>, nl: NewLine)
    requires ps != []
    ensures Untrimmed(ps, nl)
         == Untrimmed(ps[..|ps| - 1], nl) + (Declaration(ps[|ps| - 1]) + ",") + nl.Text() + nl.Text()
  {
    var init := ps[..|ps| - 1];
    var line := Declaration(ps[|ps| - 1]) + ",";
    assert OpenedLines(ps) == OpenedLines(init) + [line, ""];
    LinesLineAndBlank(OpenedLines(init), line, nl);
  }

  /**
   * Before the trim the text is `param(`, the declarations joined by the
   * separator, and one more separator after the last declaration.
   */
  lemma {:induction false} UntrimmedShape(ps: seq<Parameter>, nl: NewLine)
    requires ps != []
    ensures Untrimmed(ps, nl)
         == "param(" + nl.Text() + JoinWith(Declarations(ps), Separator(nl)) + Separator(nl)
    decreases |ps|
  {
    var init := ps[..|ps| - 1];
    var decl := Declaration(ps[|ps| - 1]);
    UntrimmedSnoc(ps, nl);
    DeclarationsSnoc(ps);
    if init == [] {
      LinesOne("param(", nl);
      assert Declarations(ps) == [decl];
    } else {
      UntrimmedShape(init, nl);
      JoinWithSnoc(Declarations(init), decl, Separator(nl));
      Regroup("param(" + nl.Text(), JoinWith(Declarations(init), Separator(nl)), Separator(nl), decl, nl.Text());
    }
  }

  lemma UntrimmedLength(ps: seq<Parameter>, nl: NewLine)
    requires ps != []
    ensures |Untrimmed(ps, nl)| >= 10
  {
    UntrimmedShape(ps, nl);
  }

  /** The block as the source writes it: the trim deletes three characters five from the end. */
  function AsWrittenBlock(op: Operation, nl: NewLine): string {
    var ps := EmittedParameters(op);
    if ps == [] then nl.Text()
    else
      UntrimmedShape(ps, nl);
      var u := Untrimmed(ps, nl);
      RemoveRange(u, |u| - 5, 3) + Closing(nl)
  }

  /**
   * The block as evidently intended: the declarations joined by a comma
   * and an empty line, no comma after the last one, then the closing
   * parenthesis and an empty line.
   */
  function ParameterBlock(op: Operation, nl: NewLine): string {
    var ps := EmittedParameters(op);
    if ps == [] then nl.Text()
    else "param(" + nl.Text() + JoinWith(Declarations(ps), Separator(nl)) + nl.Text() + Closing(nl)
  }

  /**
   * Without path or query parameters the block is one empty line;
   * otherwise it opens with `param(` on a line of its own and ends with the
   * last declaration's terminator, `)` and an empty line.
   */
  lemma ParameterBlockFrame(op: Operation, nl: NewLine)
    ensures EmittedParameters(op) == [] ==> ParameterBlock(op, nl) == nl.Text()
    ensures EmittedParameters(op) != [] ==>
              && StartsWith(ParameterBlock(op, nl), "param(" + nl.Text())
              && EndsWith(ParameterBlock(op, nl), nl.Text() + Closing(nl))
  {
    var ps := EmittedParameters(op);
    if ps != [] {
      Framed("param(" + nl.Text(), JoinWith(Declarations(ps), Separator(nl)), nl.Text(), Closing(nl));
    }
  }

  lemma Framed(a: string, b: string, c: string, d: string)
    ensures StartsWith(a + b + c + d, a) && EndsWith(a + b + c + d, c + d)
  {
    assert (a + b + c + d)[..|a|] == a;
    assert (a + b + c + d)[|a + b + c + d| - |c + d|..] == c + d;
  }

  /** Deleting the comma and one terminator of a trailing separator leaves one terminator. */
  lemma TrimSeparator(text: string, nl: NewLine)
    ensures 1 + |nl.Text()| <= |text + Separator(nl)| - |text|
    ensures RemoveRange(text + Separator(nl), |text|, 1 + |nl.Text()|) == text + nl.Text()
  {
    var s := text + Separator(nl);
    assert s[..|text|] == text;
    assert s[|text| + 1 + |nl.Text()|..] == nl.Text();
  }

  /** With a two-character terminator the fixed offset deletes exactly the comma and one terminator. */
  lemma AsWrittenIsIntendedOnCrLf(op: Operation)
    ensures AsWrittenBlock(op, CrLf) == ParameterBlock(op, CrLf)
  {
    var ps := EmittedParameters(op);
    if ps != [] {
      UntrimmedShape(ps, CrLf);
      var text := "param(" + CrLf.Text() + JoinWith(Declarations(ps), Separator(CrLf));
      TrimSeparator(text, CrLf);
      assert |text + Separator(CrLf)| - 5 == |text|;
    }
  }

  /**
   * With a one-character terminator the fixed offset starts two
   * characters too early: it deletes the last two characters of the last
   * declaration and the comma, and keeps the empty line, so the block is
   * one character shorter than intended.
   */
  lemma AsWrittenOnLf(op: Operation)
    requires EmittedParameters(op) != []
    ensures var ps := EmittedParameters(op);
            var text := "param(" + Lf.Text() + JoinWith(Declarations(ps), Separator(Lf));
            && AsWrittenBlock(op, Lf) == text[..|text| - 2] + "\n\n" + Closing(Lf)
            && ParameterBlock(op, Lf) == text + "\n" + Closing(Lf)
            && |AsWrittenBlock(op, Lf)| + 1 == |ParameterBlock(op, Lf)|
  {
    var ps := EmittedParameters(op);
    UntrimmedShape(ps, Lf);
    var text := "param(" + Lf.Text() + JoinWith(Declarations(ps), Separator(Lf));
    var u := text + Separator(Lf);
    assert |text| >= 7;
    var cut := RemoveRange(u, |u| - 5, 3);
    assert cut == text[..|text| - 2] + "\n\n";
  }

  /** An operation with a single path parameter `id` and no request body. */
  const IdOperation: Operation := Operation([Parameter("id", Some(Path), None)], [])

  /**
   * For example, the single path parameter `id` loses its variable name
   * and the block keeps an empty line before the closing parenthesis.
   */
  lemma AsWrittenDropsNameOnLf()
    ensures AsWrittenBlock(IdOperation, Lf) == "param(\n" + MandatoryLine + "\n   [String] $" + "\n\n" + Closing(Lf)
    ensures ParameterBlock(IdOperation, Lf) == "param(\n" + MandatoryLine + "\n   [String] $id" + "\n" + Closing(Lf)
  {
    AsWrittenOnLf(IdOperation);
    IdOperationJoined();
    var text := "param(\n" + MandatoryLine + "\n   [String] $id";
    assert text[..|text| - 2] == "param(\n" + MandatoryLine + "\n   [String] $";
  }

  lemma IdOperationJoined()
    ensures "param(" + Lf.Text() + JoinWith(Declarations(EmittedParameters(IdOperation)), Separator(Lf))
         == "param(\n" + MandatoryLine + "\n   [String] $id"
  {
    var d := Declaration(IdOperation.parameters[0]);
    IdOperationEmits();
    IdDeclaration();
    JoinWithOne(d, Separator(Lf));
    assert JoinWith(Declarations(EmittedParameters(IdOperation)), Separator(Lf)) == d;
    assert "param(" + Lf.Text() == "param(\n";
  }

  lemma IdOperationEmits()
    ensures Declarations(EmittedParameters(IdOperation)) == [Declaration(IdOperation.parameters[0])]
  {
    var p := IdOperation.parameters[0];
    assert IdOperation.parameters[1..] == [];
    assert EmittedParameters(IdOperation) == [p];
  }

  lemma IdDeclaration()
    ensures Declaration(IdOperation.parameters[0]) == MandatoryLine + "\n   [String] $id"
  {
    assert ConvertKebabCaseToSnakeCase("id") == "id";
  }

  lemma JoinWithOne(part: string, sep: string)
    ensures JoinWith([part], sep) == part
  {
    assert [part][1..] == [];
  }

  /** The intended block is the text before the trim, with its last separator cut back to one terminator. */
  lemma IntendedFromUntrimmed(op: Operation, nl: NewLine) returns (text: string)
    requires EmittedParameters(op) != []
    ensures Untrimmed(EmittedParameters(op), nl) == text + Separator(nl)
    ensures ParameterBlock(op, nl) == text + nl.Text() + Closing(nl)
  {
    UntrimmedShape(EmittedParameters(op), nl);
    text := "param(" + nl.Text() + JoinWith(Declarations(EmittedParameters(op)), Separator(nl));
  }

  /** The block as written is the text before the trim, cut at the fixed offset, and the closing lines. */
  lemma AsWrittenFromUntrimmed(op: Operation, nl: NewLine) returns (u: string)
    requires EmittedParameters(op) != []
    ensures Untrimmed(EmittedParameters(op), nl) == u && |u| >= 10
    ensures AsWrittenBlock(op, nl) == RemoveRange(u, |u| - 5, 3) + Closing(nl)
  {
    UntrimmedLength(EmittedParameters(op), nl);
    u := Untrimmed(EmittedParameters(op), nl);
  }

  /** The buffer states of `AppendParametersAsWritten` after the declarations. */
  lemma AsWrittenSteps(before: string, u: string, nl: NewLine, trimmed: string, after: string)
    requires |u| >= 5
    requires trimmed == RemoveRange(before + u, |before + u| - 5, 3)
    requires after == trimmed + ")" + nl.Text() + nl.Text()
    ensures after == before + (RemoveRange(u, |u| - 5, 3) + Closing(nl))
  {
    RemoveRangeAfter(before, u, |u| - 5, 3);
    ClosingAppended(before, RemoveRange(u, |u| - 5, 3), nl);
  }

  /** The buffer states of the corrected `AppendParameters` after the declarations. */
  lemma TrimmedSteps(before: string, text: string, nl: NewLine, untrimmed: string,
                      start: nat, count: nat, trimmed: string, after: string)
    requires untrimmed == before + (text + Separator(nl))
    requires start == |untrimmed| - (1 + 2 * |nl.Text()|) && count == 1 + |nl.Text()|
    requires start + count <= |untrimmed|
    requires trimmed == RemoveRange(untrimmed, start, count)
    requires after == trimmed + ")" + nl.Text() + nl.Text()
    ensures after == before + (text + nl.Text() + Closing(nl))
  {
    var n := nl.Text();
    var kept := before + text;
    assert untrimmed == kept + ("," + n) + n;
    CutMiddle(kept, "," + n, n);
    assert trimmed == kept + n;
    ClosingAppended(before, text + n, nl);
  }

  lemma ClosingAppended(before: string, kept: string, nl: NewLine)
    ensures before + kept + ")" + nl.Text() + nl.Text() == before + (kept + Closing(nl))
  {
  }

  /** `AppendLine("param(")` and the loop: the text before the trim. */
  method AppendDeclarations(parameters: seq<Parameter>, code: StringBuilder)
    modifies code
    ensures code.content == old(code.content) + Untrimmed(parameters, code.newLine)
  {
    var nl := code.newLine;
    code.AppendLine("param(");
    LinesOne("param(", nl);
    var i := 0;
    while i < |parameters|
      invariant 0 <= i <= |parameters|
      invariant code.content == old(code.content) + Lines(OpenedLines(parameters[..i]), nl)
    {
      var parameter := parameters[i];
      code.AppendLine(Declaration(parameter) + ",");
      code.AppendEmptyLine();
      assert parameters[..i + 1][..i] == parameters[..i];
      LinesSnocBlank(old(code.content), OpenedLines(parameters[..i]), Declaration(parameter) + ",", nl);
      i := i + 1;
    }
    assert parameters[..i] == parameters;
  }

  /**
   * `AppendParameters` as the source writes it: the trim is
   * `Remove(Length - 5, 3)` whatever the platform's terminator.
   */
  method AppendParametersAsWritten(op: Operation, code: StringBuilder)
    modifies code
    ensures code.content == old(code.content) + AsWrittenBlock(op, code.newLine)
  {
    var nl := code.newLine;
    var parameters := EmittedParameters(op);
    if |parameters| == 0 {
      code.AppendEmptyLine();
      return;
    }
    AppendDeclarations(parameters, code);
    ghost var u := AsWrittenFromUntrimmed(op, nl);
    ghost var before := old(code.content);
    code.Remove(|code.content| - 5, 3);
    ghost var trimmed := code.content;
    code.AppendLine(")");
    code.AppendEmptyLine();
    AsWrittenSteps(before, u, nl, trimmed, code.content);
  }

  /**
   * `AppendParameters` with the trim the block needs: it deletes the comma
   * after the last declaration and one terminator, measured from the
   * platform's terminator.
   */
  method AppendParameters(op: Operation, code: StringBuilder)
    modifies code
    ensures code.content == old(code.content) + ParameterBlock(op, code.newLine)
  {
    var nl := code.newLine;
    var parameters := EmittedParameters(op);
    if |parameters| == 0 {
      code.AppendEmptyLine();
      return;
    }
    AppendDeclarations(parameters, code);
    ghost var text := IntendedFromUntrimmed(op, nl);
    ghost var before := old(code.content);
    ghost var untrimmed := code.content;
    var width := |nl.Text()|;
    var start, count := |code.content| - (1 + 2 * width), 1 + width;
    code.Remove(start, count);
    ghost var trimmed := code.content;
    code.AppendLine(")");
    code.AppendEmptyLine();
    TrimmedSteps(before, text, nl, untrimmed, start, count, trimmed, code.content);
  }
}
