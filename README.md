# curlgenerator: a verified model of the script generator's core

curlgenerator reads an OpenAPI description and writes one shell script per
operation. The script is Bash (`.sh`) or PowerShell (`.ps1`), and it issues
that operation's request with curl. This project models the logic of that
generator that does not depend on the outside world:

- the string helpers that build file and variable names (`StringExtensions`);
- the sample value synthesised from a schema for a request body, and the
  conversion of literal examples (`SampleSynthesis`);
- the driver: it settles the base URL, then visits every path and, within
  it, every operation, and builds one named script file per operation
  (`ScriptFileGenerator`);
- the two dialects' parameter blocks, which are appended to a text buffer:
  Bash variables (`BashScriptFileGenerator`) and a PowerShell `param(...)`
  declaration. The PowerShell block ends with an in-place deletion
  (`PwshScriptFileGenerator`).

Supporting modules:

- `OpenApi` holds the parsed description as the generator reads it.
- `TextBuffer` holds the runtime's `StringBuilder`, as a class with a
  `content` field that its methods update.
- `Wrappers` holds `Option`, `Result` and `Collect`, which runs a sequence
  of results until the first failure.
- `Sequences` holds facts about slicing and concatenation for any element
  type.

The generating loops are methods over the buffer and the file list. Each
method is proved against a function that states its whole result:

- `Lines` for the appended text;
- `Files` and `Generation` for the produced files;
- `ParameterBlock` for each dialect's block.

The properties are proved about those functions as lemmas.

The empty operation name: the C# code slices the first character of the
generated operation name. On an empty name that slice throws, and the whole
generation stops. Here the run instead returns `EmptyOperationName`, with
the path and verb of the first operation that has no name. Likewise, the
Pascal-case converters return `None` exactly when a segment is empty, which
is where the C# code throws.

The environment is a parameter:

- the platform's line terminator (`NewLine.Lf` or `NewLine.CrLf`);
- the operation-name generator and the dialect's request assembly (Dafny
  functions in `Generator`);
- URI validation and authority extraction (`isAbsoluteUri`, `authorityOf`);
- the JSON serialiser (`serialize`);
- the clock (`Clock`, with today's and now's texts already formatted).

## Model

| member | source | states |
|---|---|---|
| StringExtensions.ConvertKebabCaseToSnakeCase | src/CurlGenerator.Core/StringExtensions.cs:12-15 | The output has the input's length. Each `-` becomes `_` and every other character is lower-cased. No hyphen and no upper-case ASCII letter remains. |
| StringExtensions.SnakeCaseIdempotent | src/CurlGenerator.Core/StringExtensions.cs:12-15 | Converting twice gives the same result as converting once. |
| StringExtensions.CapitalizeFirstCharacter | src/CurlGenerator.Core/StringExtensions.cs:22-25 | It needs a non-empty string, because the source slices `[0..1]`. The length and every character after the first are kept. The first character becomes the upper-case form of the input's first character, so it is not a lower-case letter. A string whose first character is not lower-case comes back unchanged. |
| StringExtensions.CapitalizeIdempotent | src/CurlGenerator.Core/StringExtensions.cs:22-25 | Capitalising twice gives the same result as capitalising once. |
| StringExtensions.Prefix | src/CurlGenerator.Core/StringExtensions.cs:32-35 | The result always starts with the prefix. A string that already starts with it is returned unchanged; any other string gets the prefix put in front. |
| StringExtensions.PrefixIdempotent | src/CurlGenerator.Core/StringExtensions.cs:32-35 | Prefixing twice gives the same result as prefixing once. |
| StringExtensions.SplitJoinRoundTrip | src/CurlGenerator.Core/StringExtensions.cs:9 | `Split` on one character, joined back with that character, gives the original string. So the split loses nothing, empty segments included. |
| StringExtensions.ConvertRouteToCamelCase | src/CurlGenerator.Core/StringExtensions.cs:17-20 | It is defined for every route, because empty segments are dropped. The result equals an independent one-pass walk that removes each `/` and upper-cases the character after it and the first character. It contains no `/`, and its length is the input's length minus the number of slashes. |
| StringExtensions.SplitCapitalizeIsCapitalizeAfter | src/CurlGenerator.Core/StringExtensions.cs:29 | For any string, capitalising the non-empty segments of its split and concatenating them equals the one-pass reference walk. |
| StringExtensions.NoEmptySegmentIff | src/CurlGenerator.Core/StringExtensions.cs:29 | Every segment of a split is non-empty exactly when the string is non-empty, does not start or end with the separator, and has no two adjacent separators. |
| StringExtensions.ConvertSpacesToPascalCase | src/CurlGenerator.Core/StringExtensions.cs:27-30 | It is defined exactly when no space-separated segment is empty. Then it equals the one-pass reference walk, it has no space, and its length is the input's length minus the number of spaces. |
| StringExtensions.MapPascalSegmentIsReplace | src/CurlGenerator.Core/StringExtensions.cs:9 | Replacing dots segment by segment gives the same text as replacing them in the concatenation. |
| StringExtensions.ConvertKebabCaseToPascalCase | src/CurlGenerator.Core/StringExtensions.cs:7-10 | It is defined exactly when no hyphen-separated segment is empty. Then it equals the reference walk with dots turned into underscores. It contains no `-` and no `.`, and its length is the input's length minus the number of hyphens. |
| OpenApi.ParametersAt | src/CurlGenerator.Core/BashScriptFileGenerator.cs:17-23 | The filter keeps only parameters at the given locations and never adds any. |
| OpenApi.ParametersAtMembers | src/CurlGenerator.Core/BashScriptFileGenerator.cs:17-23 | A parameter is kept exactly when it is one of the operation's parameters and sits at one of the given locations. |
| OpenApi.ParametersAtAppend | src/CurlGenerator.Core/PwshScriptFileGenerator.cs:17-21 | The filter keeps the input order: filtering a concatenation gives the concatenation of the filtered parts. |
| SampleSynthesis.ConvertOpenApiAnyToObject | src/CurlGenerator.Core/ScriptFileGenerator.cs:163-178 | An object literal becomes an object with the same keys in the same order, each value the conversion of that member's literal. An array literal becomes an array of the same length whose element k is the conversion of literal element k. Strings, integers, longs, floats, doubles, booleans and date-times become the plain value of their kind with the same content. An unrecognised literal becomes its rendering, or `"value"` without one. |
| SampleSynthesis.ConvertLiteralRoundTrip | src/CurlGenerator.Core/ScriptFileGenerator.cs:163-178 | Converting the literal written from any value gives back that value, keys and order included. So the conversion loses no structure. |
| SampleSynthesis.Put | src/CurlGenerator.Core/ScriptFileGenerator.cs:127 | Dictionary assignment: an existing key keeps the key order, and a new key is appended at the end. |
| SampleSynthesis.PutReplaces | src/CurlGenerator.Core/ScriptFileGenerator.cs:127 | In a dictionary with distinct keys, assigning the key at position j sets that position's value and leaves every other entry unchanged. |
| SampleSynthesis.FillDistinct | src/CurlGenerator.Core/ScriptFileGenerator.cs:123-129 | Assigning properties with distinct keys in turn appends every pair, in declaration order. |
| SampleSynthesis.StringSample | src/CurlGenerator.Core/ScriptFileGenerator.cs:139-147 | The string formats: `date` and `date-time` give the clock's texts, `email` gives `user@example.com`, `uri` gives `https://example.com`, and any other format gives `string`. |
| SampleSynthesis.GenerateSampleObjectFromSchema | src/CurlGenerator.Core/ScriptFileGenerator.cs:112-161 | An example wins, whatever the type. An object has the declared keys in order. An array holds exactly the sample of the `items` schema when there is one, and nothing otherwise. A string follows its format. Integer gives 0, number gives `0.0` and boolean gives false. Any other or absent type gives `"value"`. |
| SampleSynthesis.ObjectSampleEntries | src/CurlGenerator.Core/ScriptFileGenerator.cs:121-130 | Entry `i` of an object sample is property `i`'s key with that property's own sample. |
| SampleSynthesis.SampleConforms | src/CurlGenerator.Core/ScriptFileGenerator.cs:112-161 | Without examples, the sample of a schema is an instance of it at every depth, checked against an independent conformance predicate. |
| SampleSynthesis.ExampleRoundTrip | src/CurlGenerator.Core/ScriptFileGenerator.cs:114-117 | A schema whose example is written from a value synthesises exactly that value. |
| SampleSynthesis.SampleIgnoresClock | src/CurlGenerator.Core/ScriptFileGenerator.cs:139-143 | Only the `date` and `date-time` formats read the clock. A schema without them has the same sample at any time. |
| SampleSynthesis.GenerateSampleJsonFromSchema | src/CurlGenerator.Core/ScriptFileGenerator.cs:96-110 | A missing schema gives `{}`. A present one gives the serialiser's text of its sample. |
| TextBuffer.RemoveRange | src/CurlGenerator.Core/PwshScriptFileGenerator.cs:47 | Deleting `count` characters at `start` shortens the text by exactly `count`. It keeps the text before `start` and the text after `start + count`. |
| TextBuffer.StringBuilder.Remove | src/CurlGenerator.Core/PwshScriptFileGenerator.cs:47 | The deletion requires the range to lie inside the text, where the runtime throws otherwise. It changes the buffer to exactly `RemoveRange` of the old text. |
| TextBuffer.StringBuilder.AppendLine | src/CurlGenerator.Core/ScriptFileGenerator.cs:55 | Appends the line and the platform's terminator, and keeps everything already there. |
| TextBuffer.StringBuilder.AppendEmptyLine | src/CurlGenerator.Core/BashScriptFileGenerator.cs:27 | `AppendLine()` with no argument: appends only the platform's terminator and keeps everything already there. The same call appears at lines 31 and 60 of that file and at lines 25, 45 and 50 of `PwshScriptFileGenerator.cs`. |
| TextBuffer.LinesAppend | src/CurlGenerator.Core/BashScriptFileGenerator.cs:33-60 | The text of consecutive runs of lines is the text of each run in turn. |
| BashScriptFileGenerator.ParameterLinesAt | src/CurlGenerator.Core/BashScriptFileGenerator.cs:33-42 | Parameter `i` owns two lines: its comment at `2i` (the description, else the lower-cased location and snake-case name) and its declaration `name=""` at `2i + 1`. |
| BashScriptFileGenerator.FormFieldLines | src/CurlGenerator.Core/BashScriptFileGenerator.cs:44-58 | There are no lines unless the first content type is `application/x-www-form-urlencoded` or `multipart/form-data`. Then there is one `key=""` line per schema property, in order, keys not snake-cased. |
| BashScriptFileGenerator.ParameterBlockShape | src/CurlGenerator.Core/BashScriptFileGenerator.cs:25-60 | With no selected parameter, the block is one empty line, form body or not. Otherwise it is an empty line, two lines per parameter, the form fields, and a closing empty line. |
| BashScriptFileGenerator.AppendParameters | src/CurlGenerator.Core/BashScriptFileGenerator.cs:15-61 | Keeps the old buffer as a prefix and appends exactly the text of the block's lines. |
| BashScriptFileGenerator.AppendParameterLines | src/CurlGenerator.Core/BashScriptFileGenerator.cs:33-42 | The parameter loop appends the comment and declaration lines of every parameter, in order. |
| BashScriptFileGenerator.AppendFormFields | src/CurlGenerator.Core/BashScriptFileGenerator.cs:45-58 | The form loop appends exactly the form-field lines. |
| BashScriptFileGenerator.AsVariable | src/CurlGenerator.Core/BashScriptFileGenerator.cs:63 | A reference is `${` + snake-case name + `}`, three characters longer than the name, with no hyphen. |
| BashScriptFileGenerator.AsVariableNamesDeclaration | src/CurlGenerator.Core/BashScriptFileGenerator.cs:63 | The name a reference substitutes is the variable that the block declares for that parameter. |
| PwshScriptFileGenerator.EmittedParameters | src/CurlGenerator.Core/PwshScriptFileGenerator.cs:17-21 | Only path and query parameters are declared. |
| PwshScriptFileGenerator.AsVariable | src/CurlGenerator.Core/PwshScriptFileGenerator.cs:53 | A reference is `$` followed by exactly the snake-case form of the name, so it has no hyphen and no upper-case letter after the `$`. |
| PwshScriptFileGenerator.DeclarationShape | src/CurlGenerator.Core/PwshScriptFileGenerator.cs:34-44 | A declaration opens with a `<# ... #>` comment exactly when the parameter has a description. Every declaration ends with the `Mandatory=$True` annotation and the typed variable. |
| PwshScriptFileGenerator.DeclarationAt | src/CurlGenerator.Core/PwshScriptFileGenerator.cs:31-46 | Declaration `i` belongs to parameter `i`. |
| PwshScriptFileGenerator.UntrimmedShape | src/CurlGenerator.Core/PwshScriptFileGenerator.cs:29-46 | Before the deletion, the text is `param(`, the declarations joined by a comma and an empty line, and one more such separator after the last declaration. |
| PwshScriptFileGenerator.AppendDeclarations | src/CurlGenerator.Core/PwshScriptFileGenerator.cs:29-46 | The opening line and the loop append exactly that text. |
| PwshScriptFileGenerator.ParameterBlockFrame | src/CurlGenerator.Core/PwshScriptFileGenerator.cs:23-50 | With no path or query parameter, the block is one empty line. Otherwise it opens with `param(` on its own line and ends with a terminator, `)` and an empty line. |
| PwshScriptFileGenerator.AppendParametersAsWritten | src/CurlGenerator.Core/PwshScriptFileGenerator.cs:15-51 | The method as written, with `Remove(Length - 5, 3)` whatever the terminator, appends exactly `AsWrittenBlock`. |
| PwshScriptFileGenerator.AppendParameters | src/CurlGenerator.Core/PwshScriptFileGenerator.cs:15-51 | The block with the trim measured from the platform's terminator appends exactly `ParameterBlock`: the declarations joined by separators, no trailing comma, then `)` and an empty line. |
| PwshScriptFileGenerator.AsWrittenIsIntendedOnCrLf | src/CurlGenerator.Core/PwshScriptFileGenerator.cs:47 | With a CRLF terminator, the fixed offset deletes exactly the last comma and one line break, so the block as written is the intended block. |
| PwshScriptFileGenerator.AsWrittenOnLf | src/CurlGenerator.Core/PwshScriptFileGenerator.cs:47 | With an LF terminator, the fixed offset deletes the last two characters of the last declaration and its comma, and keeps an extra empty line. |
| PwshScriptFileGenerator.AsWrittenDropsNameOnLf | src/CurlGenerator.Core/PwshScriptFileGenerator.cs:47 | For a single path parameter `id` under LF, the block as written declares `[String] $` with the name gone, where the intended block declares `[String] $id`. |
| ScriptFileGenerator.VerbText | src/CurlGenerator.Core/ScriptFileGenerator.cs:49 | Capitalising the verb's enumeration name leaves it unchanged. |
| ScriptFileGenerator.ScriptFor | src/CurlGenerator.Core/ScriptFileGenerator.cs:48-59 | An operation's file exists exactly when its generated name is non-empty. Otherwise the error names that operation's path and verb. |
| ScriptFileGenerator.ScriptFileName | src/CurlGenerator.Core/ScriptFileGenerator.cs:52-55 | A file name is the operation name with its first character replaced by its upper-case form and the rest kept, then `.` and the dialect's extension. The file's text ends with the line terminator. |
| ScriptFileGenerator.TraversalAppend | src/CurlGenerator.Core/ScriptFileGenerator.cs:41-44 | The visit order is paths in order, then operations in order within a path. The traversal of consecutive path lists is the traversal of the first, then of the second. |
| ScriptFileGenerator.EntryAt | src/CurlGenerator.Core/ScriptFileGenerator.cs:44-48 | Entry `k` of a path is the path's operation `k`, with its verb. |
| ScriptFileGenerator.FilesInOrder | src/CurlGenerator.Core/ScriptFileGenerator.cs:40-63 | On success there is exactly one file per visited operation, in traversal order, and file `k` is operation `k`'s own file. |
| ScriptFileGenerator.FilesSucceedIff | src/CurlGenerator.Core/ScriptFileGenerator.cs:40-63 | Generation succeeds exactly when every visited operation gets a non-empty name. |
| ScriptFileGenerator.FilesFailure | src/CurlGenerator.Core/ScriptFileGenerator.cs:40-63 | A failed run reports the first operation with an empty name; every operation before it has a name. |
| ScriptFileGenerator.GeneratedFileNames | src/CurlGenerator.Tests/ScriptFileGeneratorTests.cs:25 | Every generated file name ends with `.` and the dialect's extension, so a Bash run produces only `.sh` files. |
| ScriptFileGenerator.GenerateCode | src/CurlGenerator.Core/ScriptFileGenerator.cs:34-64 | The nested loops return exactly `Generation`: the files of all operations in traversal order, or the first operation's naming error. |
| ScriptFileGenerator.GeneratePathFiles | src/CurlGenerator.Core/ScriptFileGenerator.cs:44-60 | The inner loop extends the files of the earlier paths by those of one path's operations, or stops with the first error. |
| ScriptFileGenerator.GenerateScriptFile | src/CurlGenerator.Core/ScriptFileGenerator.cs:48-59 | The loop body, which builds the file in a fresh buffer, returns exactly that operation's `ScriptFor`. |
| ScriptFileGenerator.StartsWithHttpIff | src/CurlGenerator.Core/ScriptFileGenerator.cs:22 | The case-insensitive test accepts exactly the strings whose first four characters are h, t, t, p, each in either case. |
| ScriptFileGenerator.ResolveBaseUrl | src/CurlGenerator.Core/ScriptFileGenerator.cs:20-27 | The configured base URL followed by the first server URL is kept when it is absolute. When it is not absolute and the description's location starts with `http`, the result is the location's authority followed by the joined URL. The rule fails exactly when that location cannot be parsed. A location that does not start with `http` gives the joined URL unchanged. A successful result always ends with the joined URL. |
| ScriptFileGenerator.LocalDescriptionKeepsBaseUrl | src/CurlGenerator.Core/ScriptFileGenerator.cs:20-27 | A description read from a local file uses the joined URL unchanged, and that URL begins with the configured base URL. |
| ScriptFileGenerator.NoServersUsesBaseUrl | src/CurlGenerator.Tests/ScriptFileGeneratorTests.cs:29-43 | A local description with no servers uses exactly the configured base URL. |
| ScriptFileGenerator.Generate | src/CurlGenerator.Core/ScriptFileGenerator.cs:20-31 | Once the document is loaded, the result is the base-URL rule's error, or the generation against the resolved base URL. |

## Left out

- Document loading (`OpenApiDocumentFactory.CreateAsync`) is asynchronous I/O. The model starts from the parsed `Document`.
- Logging (`TryLog`) and `SerializeObject` write files and call a foreign serialiser. They are treated as no-ops.
- The JSON serialiser of `GenerateSampleJsonFromSchema` is a parameter. The `catch` that turns a serialiser exception into `{}` is not modelled, and neither is the text the serialiser produces.
- `GenerateRequest`, the PowerShell and Bash request bodies, and `OperationNameGenerator` are not part of this model. They enter as the function-valued fields of `Generator`. The test that the script's content contains the custom base URL therefore rests on the base-URL rule alone (`NoServersUsesBaseUrl`, `LocalDescriptionKeepsBaseUrl`).
- `Uri.IsWellFormedUriString`, `new Uri(...)` and `GetLeftPart(UriPartial.Authority)` are library URI parsing. They are the parameters `isAbsoluteUri` and `authorityOf`, where `None` stands for the constructor's exception.
- The clock is a parameter holding today's and now's texts. Date formatting is not modelled.
- Floating-point values (`number` gives `0.0`, and `OpenApiFloat` and `OpenApiDouble`) are literal text, not numbers. Integer widths of `OpenApiInteger` and `OpenApiLong` are not distinguished, since both are copied unchanged.
- Case mapping is ASCII only. The invariant culture's Unicode mapping and the culture rules of `string.StartsWith` are not modelled.
- StringExtensions.ConvertKebabCaseToPascalCase: an empty segment is `None` where the runtime throws. The same holds for ConvertSpacesToPascalCase.
- ScriptFileGenerator.GenerateCode: an empty operation name ends the run with `EmptyOperationName`, where the runtime throws from `CapitalizeFirstCharacter`. No file list escapes in either case.
- SampleSynthesis.ConvertOpenApiAnyToObject: `ToDictionary` throws on duplicate keys. An `OpenApiObject` is itself a dictionary, so its keys are distinct and the model copies the entries in order.
- SampleSynthesis.GenerateSampleObjectFromSchema: schemas are finite trees. A schema that refers back to itself, which the runtime would follow until the stack overflows, cannot be written.
- BashScriptFileGenerator.FormFieldLines: a form content entry without a schema, where the runtime throws on `.Schema.Properties`, is not modelled. Every content entry carries a schema, and an absent property dictionary is the empty one.
- A missing request body and a request body without content are both the empty content map. The shown code treats them alike.
- The raw string literal in the PowerShell declaration breaks its lines with `\n` (`LiteralBreak`). That is the line ending of the source file, not the platform's. Only `AppendLine` uses the platform's terminator.
- The settings fields that the driver does not read, and `ISettings`, are left out. `Joiner`, the comment markers and `ShellName` are only read by request assembly, which is not part of this model.

## Findings

| source | as written | input that shows it | evidently intended | confidence | as-written member | corrected member |
|---|---|---|---|---|---|---|
| src/CurlGenerator.Core/PwshScriptFileGenerator.cs:47 | `code.Remove(code.Length - 5, 3)` assumes the last five characters are `,\r\n\r\n`. | An operation with one path parameter `id` and no description, generated on a system whose line terminator is `\n`. The deletion removes `id,` and the block declares `[String] $`, followed by an extra empty line. | Delete the comma after the last declaration and one terminator, measured from the platform's terminator: `Remove(Length - (1 + 2·|NewLine|), 1 + |NewLine|)`. This equals the code as written under CRLF. | not executed | PwshScriptFileGenerator.AsWrittenDropsNameOnLf | PwshScriptFileGenerator.AppendParameters |
