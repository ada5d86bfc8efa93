/**
 * The Bash dialect's parameter block: one commented, empty-initialised
 * shell variable per path, query, header or cookie parameter, then one per
 * form field when the request body is a form, framed by empty lines.
 */
module BashScriptFileGenerator {
  import opened Wrappers
  import opened OpenApi
  import opened StringExtensions
  import opened TextBuffer

  const FileExtension: string := "sh"

  /** The locations whose parameters become script variables. */
  function EmittedLocations(): set<Location> {
    {Path, Query, Header, Cookie}
  }

  /** The comment above a variable: its description, else its location and name. */
  function CommentLine(p: Parameter): string
    requires p.location.Some?
  {
    if p.description.None? then
      "# " + ToLower(LocationName(p.location.value)) + " parameter: " + ConvertKebabCaseToSnakeCase(p.name)
    else
      "# " + p.description.value
  }

  /** `name=""`: the variable, initialised empty. */
  function DeclarationLine(p: Parameter): string {
    ConvertKebabCaseToSnakeCase(p.name) + "=\"\""
  }

  /** The two lines of each parameter, in order. */
  function ParameterLines(ps: seq<Parameter>): (r: seq<string>)
    requires forall i :: 0 <= i < |ps| ==> ps[i].location.Some?
    ensures |r| == 2 * |ps|
  {
    if ps == [] then []
    else ParameterLines(ps[..|ps| - 1]) + [CommentLine(ps[|ps| - 1]), DeclarationLine(ps[|ps| - 1])]
  }

  /** Parameter `i` owns lines `2i` (its comment) and `2i + 1` (its declaration). */
  lemma {:induction false} ParameterLinesAt(ps: seq<Parameter>, i: nat)
    requires forall k :: 0 <= k < |ps| ==> ps[k].location.Some?
    requires i < |ps|
    ensures ParameterLines(ps)[2 * i] == CommentLine(ps[i])
    ensures ParameterLines(ps)[2 * i + 1] == DeclarationLine(ps[i])
  {
    var init := ps[..|ps| - 1];
    if i < |ps| - 1 {
      ParameterLinesAt(init, i);
      assert ParameterLines(ps)[2 * i] == ParameterLines(init)[2 * i];
      assert ParameterLines(ps)[2 * i + 1] == ParameterLines(init)[2 * i + 1];
    }
  }

  /** The first declared request content type, "application/json" when there is none. */
  function RequestContentType(op: Operation): string {
    if op.requestBodyContent == [] then "application/json" else op.requestBodyContent[0].0
  }

  predicate IsFormContentType(contentType: string) {
    contentType == "application/x-www-form-urlencoded" || contentType == "multipart/form-data"
  }

  /** `key=""` for each property of a form body, keys as declared (not snake-cased). */
  function FormFieldLines(op: Operation): (r: seq<string>)
    ensures !IsFormContentType(RequestContentType(op)) ==> r == []
    ensures IsFormContentType(RequestContentType(op)) ==>
              var props := op.requestBodyContent[0].1.properties;
              |r| == |props| && forall j :: 0 <= j < |props| ==> r[j] == props[j].0 + "=\"\""
  {
    if IsFormContentType(RequestContentType(op)) then
      var props := op.requestBodyContent[0].1.properties;
      seq(|props|, j requires 0 <= j < |props| => props[j].0 + "=\"\"")
    else []
  }

  /** The parameters the block declares, in their input order. */
  function EmittedParameters(op: Operation): (r: seq<Parameter>)
    ensures forall i :: 0 <= i < |r| ==> r[i].location.Some?
  {
    ParametersAt(op.parameters, EmittedLocations())
  }

  /** The block's lines, given its parameters and its form-field lines. */
  function Block(ps: seq<Parameter>, forms: seq<string>): seq<string>
    requires forall i :: 0 <= i < |ps| ==> ps[i].location.Some?
  {
    if ps == [] then [""] else [""] + ParameterLines(ps) + forms + [""]
  }

  /** The lines the block of `op` consists of. */
  function ParameterBlock(op: Operation): seq<string> {
    Block(EmittedParameters(op), FormFieldLines(op))
  }

  /** Where the parts of `[""] + inner + forms + [""]` sit. */
  lemma EnclosedAt(inner: seq<string>, forms: seq<string>)
    ensures var b := [""] + inner + forms + [""];
            && |b| == |inner| + |forms| + 2
            && b[0] == "" && b[|b| - 1] == ""
            && (forall k :: 0 <= k < |inner| ==> b[1 + k] == inner[k])
            && (forall j :: 0 <= j < |forms| ==> b[1 + |inner| + j] == forms[j])
  {
  }

  /**
   * The block line by line: a lone empty line when no parameter is emitted
   * (even for a form body); otherwise an empty line, the parameters' lines
   * (two per parameter, see `ParameterLinesAt`), the form fields, and a
   * closing empty line.
   */
  lemma ParameterBlockShape(op: Operation)
    ensures var ps := EmittedParameters(op);
            var pl := ParameterLines(ps);
            var forms := FormFieldLines(op);
            var b := ParameterBlock(op);
            && (ps == [] ==> b == [""])
            && (ps != [] ==>
                  && |b| == 2 * |ps| + |forms| + 2
                  && b[0] == "" && b[|b| - 1] == ""
                  && (forall k :: 0 <= k < |pl| ==> b[1 + k] == pl[k])
                  && (forall j :: 0 <= j < |forms| ==> b[1 + |pl| + j] == forms[j]))
  {
    EnclosedAt(ParameterLines(EmittedParameters(op)), FormFieldLines(op));
  }

  /** `AsVariable`: how a parameter is referenced, `${snake_name}`. */
  function AsVariable(name: string): (r: string)
    ensures |r| == |name| + 3
    ensures r[..2] == "${" && r[|r| - 1] == '}'
    ensures '-' !in r
  {
    "${" + ConvertKebabCaseToSnakeCase(name) + "}"
  }

  /** The name a reference substitutes is the one the block declares. */
  lemma AsVariableNamesDeclaration(op: Operation, i: nat)
    requires i < |ParametersAt(op.parameters, EmittedLocations())|
    ensures var p := ParametersAt(op.parameters, EmittedLocations())[i];
            var v := AsVariable(p.name);
            ParameterBlock(op)[2 + 2 * i] == v[2..|v| - 1] + "=\"\""
  {
    var ps := EmittedParameters(op);
    ParameterBlockShape(op);
    ParameterLinesAt(ps, i);
    assert ParameterBlock(op)[1 + (2 * i + 1)] == ParameterLines(ps)[2 * i + 1];
  }

  /** One more parameter adds its comment and its declaration, terminated. */
  lemma ParameterLinesStep(ps: seq<Parameter>, i: nat, prefix: string, nl: NewLine)
    requires forall k :: 0 <= k < |ps| ==> ps[k].location.Some?
    requires i < |ps|
    ensures prefix + Lines(ParameterLines(ps[..i + 1]), nl)
         == prefix + Lines(ParameterLines(ps[..i]), nl)
            + CommentLine(ps[i]) + nl.Text() + DeclarationLine(ps[i]) + nl.Text()
  {
    assert ps[..i + 1][..i] == ps[..i];
    LinesSnocTwo(prefix, ParameterLines(ps[..i]), CommentLine(ps[i]), DeclarationLine(ps[i]), nl);
  }

  /** An empty line, `inner` and `forms`, and an empty line: the text of each part in turn. */
  lemma EnclosedLines(inner: seq<string>, forms: seq<string>, prefix: string, nl: NewLine)
    ensures prefix + Lines([""] + inner + forms + [""], nl)
         == prefix + nl.Text() + Lines(inner, nl) + Lines(forms, nl) + nl.Text()
  {
    LinesAppend([""] + inner + forms, [""], nl);
    LinesAppend([""] + inner, forms, nl);
    LinesAppend([""], inner, nl);
    LinesEmptyLine(nl);
  }

  /**
   * With parameters present, the block's text is an empty line, the
   * parameters' lines, the form fields' lines and a closing empty line.
   */
  lemma BlockLines(ps: seq<Parameter>, forms: seq<string>, prefix: string, nl: NewLine)
    requires forall i :: 0 <= i < |ps| ==> ps[i].location.Some?
    requires ps != []
    ensures prefix + Lines(Block(ps, forms), nl)
         == prefix + nl.Text() + Lines(ParameterLines(ps), nl) + Lines(forms, nl) + nl.Text()
  {
    EnclosedLines(ParameterLines(ps), forms, prefix, nl);
  }

  /**
   * `AppendParameters`: appends the parameter block to `code` and changes
   * nothing already there.
   */
  method AppendParameters(op: Operation, code: StringBuilder)
    modifies code
    ensures code.content == old(code.content) + Lines(ParameterBlock(op), code.newLine)
  {
    var nl := code.newLine;
    var parameters := EmittedParameters(op);

    code.AppendEmptyLine();
    if |parameters| == 0 {
      LinesEmptyLine(nl);
      return;
    }
    AppendParameterLines(parameters, code);
    AppendFormFields(op, code);
    code.AppendEmptyLine();
    BlockLines(parameters, FormFieldLines(op), old(code.content), nl);
  }

  /** The parameter part of `AppendParameters`: a comment and a declaration per parameter. */
  method AppendParameterLines(parameters: seq<Parameter>, code: StringBuilder)
    requires forall i :: 0 <= i < |parameters| ==> parameters[i].location.Some?
    modifies code
    ensures code.content == old(code.content) + Lines(ParameterLines(parameters), code.newLine)
  {
    var nl := code.newLine;
    var i := 0;
    while i < |parameters|
      invariant 0 <= i <= |parameters|
      invariant code.content == old(code.content) + Lines(ParameterLines(parameters[..i]), nl)
    {
      var parameter := parameters[i];
      code.AppendLine(CommentLine(parameter));
      code.AppendLine(DeclarationLine(parameter));
      ParameterLinesStep(parameters, i, old(code.content), nl);
      i := i + 1;
    }
    assert parameters[..i] == parameters;
  }

  /** The form-data part of `AppendParameters`: one `key=""` line per form field. */
  method AppendFormFields(op: Operation, code: StringBuilder)
    modifies code
    ensures code.content == old(code.content) + Lines(FormFieldLines(op), code.newLine)
  {
    var nl := code.newLine;
    ghost var forms := FormFieldLines(op);
    var contentType := RequestContentType(op);
    if IsFormContentType(contentType) {
      var formData := op.requestBodyContent[0].1.properties;
      var j := 0;
      while j < |formData|
        invariant 0 <= j <= |formData|
        invariant code.content == old(code.content) + Lines(forms[..j], nl)
      {
        var field := formData[j].0 + "=\"\"";
        code.AppendLine(field);
        assert forms[..j + 1] == forms[..j] + [field];
        LinesSnoc(old(code.content), forms[..j], field, nl);
        j := j + 1;
      }
      assert forms[..j] == forms;
    }
  }
}
