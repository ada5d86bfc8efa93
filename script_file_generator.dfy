/**
 * The dialect-independent driver: one script file per operation of every
 * path, in document order, named after the operation, plus the rule that
 * settles the base URL the requests are built against.
 *
 * Operation naming, request assembly and URI parsing belong to code
 * outside this model; they enter as function-valued parameters.
 */
module ScriptFileGenerator {
  import opened Wrappers
  import opened OpenApi
  import opened StringExtensions
  import opened TextBuffer
  import BashScriptFileGenerator
  import PwshScriptFileGenerator
  import opened Sequences

  /** The two concrete generators, as far as the driver tells them apart. */
  datatype Dialect = Bash | PowerShell {
    function FileExtension(): string {
      if Bash? then BashScriptFileGenerator.FileExtension else PwshScriptFileGenerator.FileExtension
    }
  }

  datatype ScriptFile = ScriptFile(filename: string, content: string)

  datatype GeneratorResult = GeneratorResult(files: seq<ScriptFile>)

  /**
   * Why generation stops with an exception: an operation whose generated
   * name is empty (capitalising it slices past its end), or a description
   * path that starts with "http" but is not a URI.
   */
  datatype GenerationError =
    | EmptyOperationName(path: string, verb: Verb)
    | MalformedSourceUri(source: string)

  /** The settings the driver reads. */
  datatype Settings = Settings(openApiPath: string, baseUrl: Option<string>)

  /**
   * What the driver needs from outside: the dialect, the platform's line
   * terminator, the operation-name generator (document, path, verb,
   * operation) and the dialect's `GenerateRequest` (settings, base URL,
   * verb, path entry, operation).
   */
  datatype Generator = Generator(
    dialect: Dialect,
    newLine: NewLine,
    nameOf: (Document, string, string, Operation) -> string,
    request: (Settings, string, string, (string, PathItem), Operation) -> string)

  /** One operation of one path, as the nested loops visit it. */
  datatype Entry = Entry(path: string, item: PathItem, verb: Verb, operation: Operation)

  function EntriesOf(path: string, item: PathItem): (r: seq<Entry>)
    ensures |r| == |item.operations|
  {
    Entries(path, item, item.operations)
  }

  function Entries(path: string, item: PathItem, ops: seq<(Verb, Operation)>): (r: seq<Entry>)
    ensures |r| == |ops|
  {
    if ops == [] then [] else Entries(path, item, ops[..|ops| - 1]) + [Entry(path, item, ops[|ops| - 1].0, ops[|ops| - 1].1)]
  }

  lemma {:induction false} EntriesAt(path: string, item: PathItem, ops: seq<(Verb, Operation)>, k: nat)
    requires k < |ops|
    ensures Entries(path, item, ops)[k] == Entry(path, item, ops[k].0, ops[k].1)
  {
    if k < |ops| - 1 {
      EntriesAt(path, item, ops[..|ops| - 1], k);
    }
  }

  lemma EntryAt(path: string, item: PathItem, k: nat)
    requires k < |item.operations|
    ensures EntriesOf(path, item)[k] == Entry(path, item, item.operations[k].0, item.operations[k].1)
  {
    EntriesAt(path, item, item.operations, k);
  }

  /** Every operation of every path: paths in order, and operations in order within a path. */
  function Traversal(paths: seq<(string, PathItem)>): seq<Entry> {
    if paths == [] then []
    else Traversal(paths[..|paths| - 1]) + EntriesOf(paths[|paths| - 1].0, paths[|paths| - 1].1)
  }

  /** The traversal of consecutive path lists is the traversal of the first, then of the second. */
  lemma {:induction false} TraversalAppend(a: seq<(string, PathItem)>, b: seq<(string, PathItem)>)
    ensures Traversal(a + b) == Traversal(a) + Traversal(b)
    decreases |b|
  {
    if b == [] {
      AppendEmpty(a);
      AppendEmpty(Traversal(a));
    } else {
      var init := b[..|b| - 1];
      var last := b[|b| - 1];
      InitOfAppend(a, b);
      assert (a + b)[|a + b| - 1] == last;
      TraversalAppend(a, init);
      Assoc(Traversal(a), Traversal(init), EntriesOf(last.0, last.1));
    }
  }

  /** The verb as the driver hands it on: the enumeration name, first letter capitalised. */
  function VerbText(v: Verb): (r: string)
    ensures r == VerbName(v)
  {
    CapitalizeFirstCharacter(VerbName(v))
  }

  /** The name the generator gives the operation of `e`. */
  function OperationName(g: Generator, document: Document, e: Entry): string {
    g.nameOf(document, e.path, VerbText(e.verb), e.operation)
  }

  /**
   * The file of one operation: the capitalised name with the dialect's
   * extension, holding the request followed by a line terminator. It fails
   * exactly when the name is empty.
   */
  function ScriptFor(g: Generator, settings: Settings, document: Document, baseUrl: string, e: Entry)
    : (r: Result<ScriptFile, GenerationError>)
    ensures r.Success? <==> OperationName(g, document, e) != ""
    ensures r.Failure? ==> r.error == EmptyOperationName(e.path, e.verb)
  {
    var name := OperationName(g, document, e);
    if name == "" then Failure(EmptyOperationName(e.path, e.verb))
    else
      var filename := CapitalizeFirstCharacter(name) + "." + g.dialect.FileExtension();
      var request := g.request(settings, baseUrl, VerbText(e.verb), (e.path, e.item), e.operation);
      Success(ScriptFile(filename, request + g.newLine.Text()))
  }

  /**
   * A file is named after its operation: the name with its first letter
   * capitalised and the rest kept, then "." and the dialect's extension;
   * its text is one line.
   */
  lemma ScriptFileName(g: Generator, settings: Settings, document: Document, baseUrl: string, e: Entry)
    requires ScriptFor(g, settings, document, baseUrl, e).Success?
    ensures var name := OperationName(g, document, e);
            var f := ScriptFor(g, settings, document, baseUrl, e).value;
            && EndsWith(f.filename, "." + g.dialect.FileExtension())
            && |f.filename| == |name| + 1 + |g.dialect.FileExtension()|
            && f.filename[0] == UpperChar(name[0]) && f.filename[1..|name|] == name[1..]
            && !IsAsciiLower(f.filename[0])
            && EndsWith(f.content, g.newLine.Text())
  {
    var name := OperationName(g, document, e);
    var f := ScriptFor(g, settings, document, baseUrl, e).value;
    var ext := "." + g.dialect.FileExtension();
    var request := g.request(settings, baseUrl, VerbText(e.verb), (e.path, e.item), e.operation);
    assert f.filename == CapitalizeFirstCharacter(name) + ext;
    assert f.filename[|f.filename| - |ext|..] == ext;
    assert f.filename[1..|name|] == CapitalizeFirstCharacter(name)[1..];
    assert f.content == request + g.newLine.Text();
    assert f.content[|f.content| - |g.newLine.Text()|..] == g.newLine.Text();
  }

  /** `ScriptFor` as a value, for mapping over a run of entries. */
  function ScriptOf(g: Generator, settings: Settings, document: Document, baseUrl: string)
    : Entry -> Result<ScriptFile, GenerationError>
  {
    e => ScriptFor(g, settings, document, baseUrl, e)
  }

  /** What each entry of a run yields, in order. */
  function Outcomes(g: Generator, settings: Settings, document: Document, baseUrl: string, entries: seq<Entry>)
    : (r: seq<Result<ScriptFile, GenerationError>>)
    ensures |r| == |entries|
  {
    Map(ScriptOf(g, settings, document, baseUrl), entries)
  }

  lemma OutcomeAt(g: Generator, settings: Settings, document: Document, baseUrl: string,
                  entries: seq<Entry>, k: nat)
    requires k < |entries|
    ensures Outcomes(g, settings, document, baseUrl, entries)[k] == ScriptFor(g, settings, document, baseUrl, entries[k])
  {
    MapAt(ScriptOf(g, settings, document, baseUrl), entries, k);
  }

  lemma OutcomesSnoc(g: Generator, settings: Settings, document: Document, baseUrl: string,
                     entries: seq<Entry>, e: Entry)
    ensures Outcomes(g, settings, document, baseUrl, entries + [e])
         == Outcomes(g, settings, document, baseUrl, entries) + [ScriptFor(g, settings, document, baseUrl, e)]
  {
    MapSnoc(ScriptOf(g, settings, document, baseUrl), entries, e);
  }

  lemma OutcomesAppend(g: Generator, settings: Settings, document: Document, baseUrl: string,
                       a: seq<Entry>, b: seq<Entry>)
    ensures Outcomes(g, settings, document, baseUrl, a + b)
         == Outcomes(g, settings, document, baseUrl, a) + Outcomes(g, settings, document, baseUrl, b)
  {
    MapAppend(ScriptOf(g, settings, document, baseUrl), a, b);
  }

  /** The files of a run of entries: the first failing entry's error, else one file per entry. */
  function Files(g: Generator, settings: Settings, document: Document, baseUrl: string, entries: seq<Entry>)
    : Result<seq<ScriptFile>, GenerationError>
  {
    Collect(Outcomes(g, settings, document, baseUrl, entries))
  }

  /** What `GenerateCode` returns for a document and a base URL. */
  function Generation(g: Generator, settings: Settings, document: Document, baseUrl: string)
    : Result<GeneratorResult, GenerationError>
  {
    var fs := Files(g, settings, document, baseUrl, Traversal(document.paths));
    if fs.Success? then Success(GeneratorResult(fs.value)) else Failure(fs.error)
  }

  /** On success there is one file per entry, in entry order, each the entry's own file. */
  lemma FilesInOrder(g: Generator, settings: Settings, document: Document, baseUrl: string,
                     entries: seq<Entry>)
    ensures var fs := Files(g, settings, document, baseUrl, entries);
            fs.Success? ==>
              && |fs.value| == |entries|
              && forall k :: 0 <= k < |entries| ==>
                   ScriptFor(g, settings, document, baseUrl, entries[k]) == Success(fs.value[k])
  {
    var outs := Outcomes(g, settings, document, baseUrl, entries);
    var fs := Collect(outs);
    if fs.Success? {
      forall k | 0 <= k < |entries|
        ensures ScriptFor(g, settings, document, baseUrl, entries[k]) == Success(fs.value[k])
      {
        CollectAt(outs, k);
        OutcomeAt(g, settings, document, baseUrl, entries, k);
      }
    }
  }

  /** Every operation of `entries` gets a non-empty name. */
  predicate AllNamed(g: Generator, document: Document, entries: seq<Entry>) {
    forall k :: 0 <= k < |entries| ==> OperationName(g, document, entries[k]) != ""
  }

  /** Generation succeeds exactly when every operation gets a non-empty name. */
  lemma FilesSucceedIff(g: Generator, settings: Settings, document: Document, baseUrl: string,
                        entries: seq<Entry>)
    ensures Files(g, settings, document, baseUrl, entries).Success? <==> AllNamed(g, document, entries)
  {
    var outs := Outcomes(g, settings, document, baseUrl, entries);
    CollectSucceedsIff(outs);
    forall k | 0 <= k < |entries|
      ensures outs[k] == ScriptFor(g, settings, document, baseUrl, entries[k])
    {
      OutcomeAt(g, settings, document, baseUrl, entries, k);
    }
  }

  /** A failure names the first operation whose name is empty. */
  lemma FilesFailure(g: Generator, settings: Settings, document: Document, baseUrl: string,
                     entries: seq<Entry>) returns (k: nat)
    requires Files(g, settings, document, baseUrl, entries).Failure?
    ensures k < |entries| && OperationName(g, document, entries[k]) == ""
    ensures AllNamed(g, document, entries[..k])
    ensures Files(g, settings, document, baseUrl, entries).error
         == EmptyOperationName(entries[k].path, entries[k].verb)
  {
    var outs := Outcomes(g, settings, document, baseUrl, entries);
    CollectSucceedsIff(outs);
    k := FirstFailure(outs);
    OutcomeAt(g, settings, document, baseUrl, entries, k);
    CollectFailsAt(outs, k);
    forall m | 0 <= m < k
      ensures OperationName(g, document, entries[..k][m]) != ""
    {
      OutcomeAt(g, settings, document, baseUrl, entries, m);
      assert outs[..k][m] == outs[m];
    }
  }

  /** Every generated file carries the dialect's extension; for Bash that is ".sh". */
  lemma GeneratedFileNames(g: Generator, settings: Settings, document: Document, baseUrl: string)
    ensures var r := Generation(g, settings, document, baseUrl);
            r.Success? ==>
              && |r.value.files| == |Traversal(document.paths)|
              && forall k :: 0 <= k < |r.value.files| ==>
                   && EndsWith(r.value.files[k].filename, "." + g.dialect.FileExtension())
                   && (g.dialect.Bash? ==> EndsWith(r.value.files[k].filename, ".sh"))
  {
    var entries := Traversal(document.paths);
    var fs := Files(g, settings, document, baseUrl, entries);
    FilesInOrder(g, settings, document, baseUrl, entries);
    if fs.Success? {
      forall k | 0 <= k < |fs.value|
        ensures EndsWith(fs.value[k].filename, "." + g.dialect.FileExtension())
      {
        ScriptFileName(g, settings, document, baseUrl, entries[k]);
      }
    }
  }

  /**
   * `GenerateCode`: visits every path and, within it, every operation,
   * building each file in a fresh buffer. An empty operation name ends the
   * run with that operation's error.
   */
  method GenerateCode(g: Generator, settings: Settings, document: Document, baseUrl: string)
    returns (r: Result<GeneratorResult, GenerationError>)
    ensures r == Generation(g, settings, document, baseUrl)
  {
    var paths := document.paths;
    var files: seq<ScriptFile> := [];
    var i := 0;
    while i < |paths|
      invariant 0 <= i <= |paths|
      invariant Files(g, settings, document, baseUrl, Traversal(paths[..i])) == Success(files)
    {
      var (path, item) := paths[i];
      var outcome := GeneratePathFiles(g, settings, document, baseUrl, Traversal(paths[..i]), path, item, files);
      PathDone(paths, i);
      if outcome.Failure? {
        r := Failure(outcome.error);
        RunFailsAfter(g, settings, document, baseUrl, i);
        return;
      }
      files := outcome.value;
      i := i + 1;
    }
    TakeAll(paths);
    r := Success(GeneratorResult(files));
  }

  /**
   * The inner loop of `GenerateCode`: the files of the operations of one
   * path, appended to those of the paths before it (`done`).
   */
  method GeneratePathFiles(g: Generator, settings: Settings, document: Document, baseUrl: string,
                           ghost done: seq<Entry>, path: string, item: PathItem, files: seq<ScriptFile>)
    returns (r: Result<seq<ScriptFile>, GenerationError>)
    requires Files(g, settings, document, baseUrl, done) == Success(files)
    ensures r == Files(g, settings, document, baseUrl, done + EntriesOf(path, item))
  {
    ghost var entries := EntriesOf(path, item);
    var current := files;
    var j := 0;
    TakeNone(done, entries);
    while j < |item.operations|
      invariant 0 <= j <= |item.operations|
      invariant Files(g, settings, document, baseUrl, done + entries[..j]) == Success(current)
    {
      var file := GenerateScriptFile(g, settings, document, baseUrl, path, item,
                                     item.operations[j].0, item.operations[j].1);
      OperationStep(g, settings, document, baseUrl, done, path, item, j, current);
      if file.Failure? {
        return Failure(file.error);
      }
      current := current + [file.value];
      j := j + 1;
    }
    TakeAll(entries);
    r := Success(current);
  }

  /**
   * The body of the inner loop: names the operation, then builds its file
   * from the request text in a fresh buffer.
   */
  method GenerateScriptFile(g: Generator, settings: Settings, document: Document, baseUrl: string,
                            path: string, item: PathItem, verbKey: Verb, operation: Operation)
    returns (r: Result<ScriptFile, GenerationError>)
    ensures r == ScriptFor(g, settings, document, baseUrl, Entry(path, item, verbKey, operation))
  {
    var verb := VerbText(verbKey);
    var name := g.nameOf(document, path, verb, operation);
    if |name| == 0 {
      return Failure(EmptyOperationName(path, verbKey));
    }
    var filename := CapitalizeFirstCharacter(name) + "." + g.dialect.FileExtension();
    var code := new StringBuilder(g.newLine);
    code.AppendLine(g.request(settings, baseUrl, verb, (path, item), operation));
    ghost var request := g.request(settings, baseUrl, verb, (path, item), operation);
    assert code.content == request + g.newLine.Text() by {
      assert "" + request == request;
    }
    r := Success(ScriptFile(filename, code.ToString()));
    ScriptForEntry(g, settings, document, baseUrl, Entry(path, item, verbKey, operation), name, r.value);
  }

  /** What operation `j` of a path does to the run: ends it with its error, or adds its file. */
  lemma OperationStep(g: Generator, settings: Settings, document: Document, baseUrl: string,
                      done: seq<Entry>, path: string, item: PathItem, j: nat, files: seq<ScriptFile>)
    requires j < |item.operations|
    requires Files(g, settings, document, baseUrl, done + EntriesOf(path, item)[..j]) == Success(files)
    ensures var file := ScriptFor(g, settings, document, baseUrl,
                                  Entry(path, item, item.operations[j].0, item.operations[j].1));
            && (file.Failure? ==> Files(g, settings, document, baseUrl, done + EntriesOf(path, item)) == Failure(file.error))
            && (file.Success? ==>
                  Files(g, settings, document, baseUrl, done + EntriesOf(path, item)[..j + 1]) == Success(files + [file.value]))
  {
    var entries := EntriesOf(path, item);
    EntryAt(path, item, j);
    SnocSlice(done, entries, j);
    OutcomesSnoc(g, settings, document, baseUrl, done + entries[..j], entries[j]);
    CollectSnoc(Outcomes(g, settings, document, baseUrl, done + entries[..j]),
                ScriptFor(g, settings, document, baseUrl, entries[j]));
    if ScriptFor(g, settings, document, baseUrl, entries[j]).Failure? {
      OperationFails(g, settings, document, baseUrl, done, entries, j);
    }
  }

  /** A failure at operation `j` of a path is the failure of the whole path. */
  lemma OperationFails(g: Generator, settings: Settings, document: Document, baseUrl: string,
                       done: seq<Entry>, entries: seq<Entry>, j: nat)
    requires j < |entries|
    requires Files(g, settings, document, baseUrl, done + entries[..j + 1]).Failure?
    ensures Files(g, settings, document, baseUrl, done + entries)
         == Files(g, settings, document, baseUrl, done + entries[..j + 1])
  {
    OutcomesAppend(g, settings, document, baseUrl, done + entries[..j + 1], entries[j + 1..]);
    CollectFailurePersists(Outcomes(g, settings, document, baseUrl, done + entries[..j + 1]),
                           Outcomes(g, settings, document, baseUrl, entries[j + 1..]));
    SplitAt(entries, j + 1);
    Assoc(done, entries[..j + 1], entries[j + 1..]);
  }

  /** A failure within path `i` is the failure of the whole run. */
  lemma RunFailsAfter(g: Generator, settings: Settings, document: Document, baseUrl: string, i: nat)
    requires i < |document.paths|
    requires Files(g, settings, document, baseUrl, Traversal(document.paths[..i + 1])).Failure?
    ensures Generation(g, settings, document, baseUrl)
         == Failure(Files(g, settings, document, baseUrl, Traversal(document.paths[..i + 1])).error)
  {
    var paths := document.paths;
    var before := Traversal(paths[..i + 1]);
    var after := Traversal(paths[i + 1..]);
    SplitAt(paths, i + 1);
    TraversalAppend(paths[..i + 1], paths[i + 1..]);
    OutcomesAppend(g, settings, document, baseUrl, before, after);
    CollectFailurePersists(Outcomes(g, settings, document, baseUrl, before),
                           Outcomes(g, settings, document, baseUrl, after));
  }

  lemma ScriptForEntry(g: Generator, settings: Settings, document: Document, baseUrl: string,
                       e: Entry, name: string, file: ScriptFile)
    requires name == OperationName(g, document, e) && name != ""
    requires file.filename == CapitalizeFirstCharacter(name) + "." + g.dialect.FileExtension()
    requires file.content == g.request(settings, baseUrl, VerbText(e.verb), (e.path, e.item), e.operation)
                             + g.newLine.Text()
    ensures ScriptFor(g, settings, document, baseUrl, e) == Success(file)
  {
  }

  /** The traversal up to path `i` is the one up to `i - 1` and the operations of path `i`. */
  lemma PathDone(paths: seq<(string, PathItem)>, i: nat)
    requires i < |paths|
    ensures Traversal(paths[..i + 1]) == Traversal(paths[..i]) + EntriesOf(paths[i].0, paths[i].1)
  {
    TakeTake(paths, i + 1, i);
  }

  // ---------------------------------------------------------------------------
  // The base URL
  // ---------------------------------------------------------------------------

  /** The first server's URL; no servers, or a server without a URL, give the empty string. */
  function FirstServerUrl(document: Document): string {
    if document.serverUrls == [] then "" else document.serverUrls[0].GetOr("")
  }

  /** The configured base URL followed by the first server's URL, absent parts counting as empty. */
  function JoinedBaseUrl(settings: Settings, document: Document): string {
    settings.baseUrl.GetOr("") + FirstServerUrl(document)
  }

  /** `StartsWith("http", OrdinalIgnoreCase)`. */
  predicate StartsWithHttp(s: string) {
    |s| >= 4 && ToLower(s[..4]) == "http"
  }

  /** The rule compares the first four characters letter by letter, ignoring case. */
  lemma StartsWithHttpIff(s: string)
    ensures StartsWithHttp(s) <==>
            && |s| >= 4
            && (s[0] == 'h' || s[0] == 'H') && (s[1] == 't' || s[1] == 'T')
            && (s[2] == 't' || s[2] == 'T') && (s[3] == 'p' || s[3] == 'P')
  {
    if |s| >= 4 {
      var low := ToLower(s[..4]);
      if low == "http" {
        assert low[0] == 'h' && low[1] == 't' && low[2] == 't' && low[3] == 'p';
      }
      if (s[0] == 'h' || s[0] == 'H') && (s[1] == 't' || s[1] == 'T')
         && (s[2] == 't' || s[2] == 'T') && (s[3] == 'p' || s[3] == 'P') {
        assert low == "http";
      }
    }
  }

  /**
   * The base URL: the joined URL, prefixed with the authority of the
   * description's own location when the joined URL is not absolute and the
   * description was fetched over HTTP(S). `isAbsoluteUri` stands for the
   * runtime's well-formedness test and `authorityOf` for parsing the
   * location (`None` where parsing throws).
   */
  function ResolveBaseUrl(settings: Settings, document: Document,
                          isAbsoluteUri: string -> bool, authorityOf: string -> Option<string>)
    : (r: Result<string, GenerationError>)
    ensures r.Success? ==> EndsWith(r.value, JoinedBaseUrl(settings, document))
    ensures r.Failure? <==>
              && !isAbsoluteUri(JoinedBaseUrl(settings, document)) && StartsWithHttp(settings.openApiPath)
              && authorityOf(settings.openApiPath).None?
    ensures r.Failure? ==> r.error == MalformedSourceUri(settings.openApiPath)
    ensures isAbsoluteUri(JoinedBaseUrl(settings, document)) ==> r == Success(JoinedBaseUrl(settings, document))
    ensures !StartsWithHttp(settings.openApiPath) ==> r == Success(JoinedBaseUrl(settings, document))
    ensures && !isAbsoluteUri(JoinedBaseUrl(settings, document)) && StartsWithHttp(settings.openApiPath)
            && authorityOf(settings.openApiPath).Some? ==>
              r == Success(authorityOf(settings.openApiPath).value + JoinedBaseUrl(settings, document))
  {
    var joined := JoinedBaseUrl(settings, document);
    if !isAbsoluteUri(joined) && StartsWithHttp(settings.openApiPath) then
      match authorityOf(settings.openApiPath)
      case None => Failure(MalformedSourceUri(settings.openApiPath))
      case Some(authority) => Success(authority + joined)
    else
      Success(joined)
  }

  /**
   * A description read from a local file, with no servers, builds its
   * requests against the configured base URL exactly.
   */
  lemma NoServersUsesBaseUrl(settings: Settings, document: Document,
                             isAbsoluteUri: string -> bool, authorityOf: string -> Option<string>)
    requires document.serverUrls == [] && settings.baseUrl.Some?
    requires !StartsWithHttp(settings.openApiPath)
    ensures ResolveBaseUrl(settings, document, isAbsoluteUri, authorityOf) == Success(settings.baseUrl.value)
  {
    assert JoinedBaseUrl(settings, document) == settings.baseUrl.value + "";
    assert settings.baseUrl.value + "" == settings.baseUrl.value;
  }

  /**
   * A description read from a local file builds its requests against the
   * joined URL, which begins with the configured base URL.
   */
  lemma LocalDescriptionKeepsBaseUrl(settings: Settings, document: Document,
                                     isAbsoluteUri: string -> bool, authorityOf: string -> Option<string>)
    requires !StartsWithHttp(settings.openApiPath)
    ensures var r := ResolveBaseUrl(settings, document, isAbsoluteUri, authorityOf);
            && r == Success(JoinedBaseUrl(settings, document))
            && StartsWith(r.value, settings.baseUrl.GetOr(""))
  {
    var b := settings.baseUrl.GetOr("");
    assert (b + FirstServerUrl(document))[..|b|] == b;
  }

  /**
   * `Generate`, after the document has been loaded: settles the base URL,
   * then generates the files against it.
   */
  method Generate(g: Generator, settings: Settings, document: Document,
                  isAbsoluteUri: string -> bool, authorityOf: string -> Option<string>)
    returns (r: Result<GeneratorResult, GenerationError>)
    ensures var b := ResolveBaseUrl(settings, document, isAbsoluteUri, authorityOf);
            && (b.Failure? ==> r == Failure(b.error))
            && (b.Success? ==> r == Generation(g, settings, document, b.value))
  {
    var baseUrl := settings.baseUrl.GetOr("") + FirstServerUrl(document);
    if !isAbsoluteUri(baseUrl) && StartsWithHttp(settings.openApiPath) {
      var authority := authorityOf(settings.openApiPath);
      if authority.None? {
        return Failure(MalformedSourceUri(settings.openApiPath));
      }
      baseUrl := authority.value + baseUrl;
    }
    r := GenerateCode(g, settings, document, baseUrl);
  }
}
