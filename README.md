# juv, modelled in Dafny

juv is a code generator for Go. It reads Go source files, finds the struct
type declarations in them, and for every struct writes an `UnmarshalJSON`
method. That method decodes JSON into a shadow copy of the struct, runs the
`validator.v9` checks on the copy, then copies each field back to the
receiver. Everything lives in `juv.go`.

This project models the core of that file and proves properties about it:

- `Describe` (describe.dfy) is the type describer: `parseIdent`,
  `parseSelector`, `parseArray`, `parseStar` and the type switch in
  `parseCode`. It turns the type expression of a struct field line into the
  type string recorded in the token, or into `""` when the shape is not
  handled. The describer is stated a second way, through a grammar written
  independently of the rules:
  - a chain of `[]`/`[n]` and `*` prefixes, never the same prefix twice in
    a row;
  - ending in an identifier or in `pkg.Name`.

  It is proved that the describer is exactly this grammar. The description
  is the type's own Go text with array lengths dropped.
- `Extract` (extract.dfy) is the rest of `parseCode`: the walk over the
  declarations, the type specs, the struct types and their field lines,
  producing `structToken` and `fieldToken` values. The walk is a set of
  methods with loops. Each loop is proved against a specification function.
  Lemmas about those functions state which structs and which fields come
  out, and in what order. `GoAst` (goast.dfy) is the part of Go's syntax
  tree that the walk sees.
- `Render` (render.dfy) is `generate`. It executes the `scansText`
  template into a buffer, with the template's text copied exactly, and runs
  the formatter. It also models the two early exits and what ends up in the
  output file.
- `Juv` (juv.dfy) is the loop of `main` over the input files. The first
  parse error ends the run; otherwise the tokens of all files are collected
  in file order and `generate` reports the result.
- `Seqs` (seqs.dfy) holds helper lemmas about mapping each element to a
  sequence and concatenating the results.
- `Wrappers` (wrappers.dfy) holds `Option` and `Result`.

Inputs the program gets from the outside world are parameters of the model:
- `parser.ParseFile` becomes the parse outcome of each file, a `Result`
  holding either a syntax tree or an error message;
- `os.Create` becomes the error it reports, if any;
- `format.Source` is an arbitrary function from text to a `Result`.

When `format.Source` fails, `generate` returns no error (juv.go:289-292).
`os.Create` (juv.go:271) has already created or truncated the output file,
so the model ends that case with an empty file and no error.

## Model

| member | source | states |
|---|---|---|
| `Describe.SelectorRule` | juv.go:217-224 | `X.Sel` is described exactly when `X` is an identifier, and then as `X` + "." + `Sel` |
| `Describe.ArrayRule` | juv.go:226-244 | an array is "[]" + its element's description when the element is an identifier, selector or pointer with a non-empty description, otherwise ""; an element that is itself an array always gives "" |
| `Describe.PointerRule` | juv.go:246-264 | a pointer is "*" + its pointee's description when the pointee is an identifier, selector or array with a non-empty description, otherwise ""; a pointer to a pointer always gives "" |
| `Describe.Dispatch` | juv.go:173-187 | only identifiers, selectors, arrays and pointers can get a type; struct literals and every other node kind give "" |
| `Describe.DescribeExact` | juv.go:212-264 | the describer in closed form: a type on the grammar (alternating `[]`/`*` prefixes over an identifier or `pkg.Name`) gets its prefixes followed by its core's Go text, any other type gets "" |
| `Describe.DescribedIffSupported` | juv.go:174-191 | a field line is kept (its description is non-empty) exactly when its type is on the grammar |
| `Describe.RoundTrip` | juv.go:212-264 | a supported type is described by the Go text of the type with its array lengths removed, and by its own Go text when it has none |
| `Describe.LengthIgnored` | juv.go:226-244 | erasing array lengths never changes a description, supported type or not |
| `Describe.PointerToSliceExample` | juv.go:246-247 | `*[]time.Time` is described as "*[]time.Time" |
| `Describe.SliceOfPointerExample` | juv.go:226-227 | `[]*sql.NullString` is described as "[]*sql.NullString" |
| `Describe.FixedLengthExample` | juv.go:226-244 | `[3]int` is described as "[]int", its Go text being "[3]int" |
| `Describe.UnsupportedExamples` | juv.go:217-264 | `[][]byte`, `**bool`, `a.b.C` and a map type are all described as "" |
| `Extract.LineTokens` | juv.go:193-201 | one field token per name on the line, in name order, each with the line's type |
| `Extract.ParseCode` | juv.go:137-210 | a parse error is returned unchanged; otherwise the result is the struct tokens of the file's declarations, in order |
| `Extract.TypeSpecTokens` | juv.go:152-206 | the tokens of one general declaration: one per struct type spec, in spec order |
| `Extract.StructFields` | juv.go:170-204 | the fields of one struct: the tokens of each field line, line after line, with lines of undescribed type dropped |
| `Extract.SpecTokensAreStructSpecs` | juv.go:152-206 | within one declaration there is exactly one token per struct type spec, the i-th token holding the i-th such spec's name and fields |
| `Extract.StructSelection` | juv.go:146-207 | over a whole file there is exactly one token per struct type spec, in declaration-then-spec order; function declarations, non-type specs and non-struct types contribute nothing |
| `Extract.FieldFlattening` | juv.go:170-204 | a struct's fields are its supported lines expanded in order, one token per name, typed by the Go text of the line's type with lengths dropped |
| `Extract.UnsupportedLinesDropped` | juv.go:189-191 | removing the lines of unsupported type beforehand leaves the fields unchanged |
| `Extract.FieldNames` | juv.go:193-203 | the field names are the names of the supported lines in order (embedded fields give none); never more fields than names, and exactly as many when every line is supported |
| `Extract.FieldMembership` | juv.go:170-204 | a token is a field of the struct exactly when it pairs a name on some line with that line's non-empty description |
| `Render.Execute` | juv.go:283-287 | executing the template gives exactly the header, one wrapper per token and a final newline |
| `Render.ExecuteRange` | juv.go:28-44 | the range over the tokens emits the tokens' wrappers in token order |
| `Render.ExecuteWrapper` | juv.go:28-43 | one wrapper is the opening with the struct's name, one assignment per field, and the closing |
| `Render.ExecuteAssignments` | juv.go:39-40 | the inner range emits the fields' assignments in field order |
| `Render.ExecuteAndFormat` | juv.go:283-295 | the file receives the formatted template output, or nothing when formatting fails |
| `Render.Generate` | juv.go:266-296 | no tokens: the error "no structs found" and the file untouched; a create error: that error and the file untouched; otherwise no error and the file holds the formatted output, or is empty when formatting fails |
| `Render.WrapperAt` | juv.go:28-44 | each token's wrapper stands in the output after the header and the earlier wrappers, and before the later ones |
| `Render.WrappersInOrder` | juv.go:28-44 | for i < j the wrapper of token i comes before the wrapper of token j in the output |
| `Render.AssignmentsInOrder` | juv.go:39-40 | within a wrapper, for i < j the assignment of field i comes before that of field j |
| `Render.FieldRendered` | juv.go:39-40 | every field of every token gets its line `r.F = a.F` in the output |
| `Render.Framing` | juv.go:20-27 | the output starts with the header naming the package and ends with a newline |
| `Juv.CollectTokens` | juv.go:79-87 | the loop over the files gives the fold that stops at the first parse error |
| `Juv.PrefixFailure` | juv.go:81-85 | once a file fails to parse the later files do not matter: the run ends with that error |
| `Juv.AllParsed` | juv.go:79-87 | when every file parses, the tokens are those of all the files' declarations in file order |
| `Juv.FirstError` | juv.go:80-85 | the loop fails exactly when some file does not parse, and then with the error of the first such file |
| `Juv.Finish` | juv.go:89-91 | a generate error reaches log.Fatal with the prefix "couldn't generate f:"; otherwise the run ends without one |
| `Juv.Run` | juv.go:79-91 | a parse error ends the run with that error and no file; otherwise the outcome of generate on the collected tokens, as in `Juv.Finish` |

## Left out

- `findFiles` (juv.go:95-135) is not modelled: its order comes from iterating a Go map, which is unspecified. The model takes the list of parsed files, in whatever order the search produced them.
- Flag parsing and the default package name from `os.Getwd` (juv.go:58-72) are not modelled: they are argument handling. The package name is a parameter.
- `parser.ParseFile` is not modelled: it is Go's own parser, and its outcome is an input. Reading the file is part of it.
- The `text/template` engine is not modelled: the one template in juv.go is written out as string concatenation. Template parsing cannot fail on that fixed text, and neither can executing it into a memory buffer, so those error returns (juv.go:279-281, 285-287) are not modelled.
- The `strings.Title` function map (juv.go:277) is not modelled: the template never calls it.
- `format.Source` is not modelled: it is Go's formatter and is a function parameter.
- `os.Create` is not modelled: it becomes the error it may report.
- A failure of `io.Copy` (juv.go:294-295) is not modelled: the file is taken to receive the whole formatted text.
- Closing the file (juv.go:275) is not modelled.
- The log messages and the process exit are not modelled: `log.Println` and `log.Fatal` reduce to the fatal message the run ends with.
- The type string of a field token is computed and kept in the model, as in the code. The template never prints it, and no lemma needs it beyond the describer's.
- The package under example/ in the repository is not part of this model.
- Go strings are byte strings; the model uses Dafny strings. Nothing here depends on the encoding, because the model only concatenates and compares text.
