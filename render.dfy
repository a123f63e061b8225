/**
 * Rendering: the text the scansText template produces for a package name
 * and a token list, the buffer that generate fills with it, and what
 * generate leaves in the output file.
 */
module Render {
  import opened Wrappers
  import opened Seqs
  import opened Extract

  /** The error generate reports when no struct was found. */
  function NoStructsFound(): string { "no structs found" }

  /** The template text before the range over the tokens. */
  function Header(pkg: string): string
  {
    "\n// generated by juv; DO NOT EDIT\npackage " + pkg +
    "\nimport (\n\t\"encoding/json\"\n\t\"gopkg.in/go-playground/validator.v9\"\n)\n\n"
  }

  /** The start of one token's UnmarshalJSON wrapper, up to its assignments. */
  function WrapperOpen(name: string): string
  {
    "func(r *" + name + ") UnmarshalJSON(b []byte) error {\n" +
    "\ttype Alias " + name + " // avoid stack over flow error\n" +
    "\tvar a Alias\n" +
    "\tif err := json.Unmarshal(b, &a); err != nil {\n\t\treturn err\n\t}\n\n" +
    "\tif err := validator.New().Struct(a); err != nil {\n\t\treturn err\n\t}\n\n\t"
  }

  /** The copy of one field from the shadow value to the receiver. */
  function Assignment(field: FieldToken): string
  {
    "r." + field.name + " = a." + field.name + "\n\t"
  }

  /** The end of a wrapper, after its assignments. */
  function WrapperClose(): string { "\n\t\n\treturn nil\n}\n" }

  function Wrapper(token: StructToken): string
  {
    WrapperOpen(token.name) + FlatMap(Assignment, token.fields) + WrapperClose()
  }

  /** The whole template output. */
  function ScansText(pkg: string, tokens: seq<StructToken>): string
  {
    Header(pkg) + FlatMap(Wrapper, tokens) + "\n"
  }

  /**
   * Executing the template into a buffer: the header, then one wrapper per
   * token, then the final newline.
   */
  method Execute(pkg: string, tokens: seq<StructToken>) returns (buff: string)
    ensures buff == ScansText(pkg, tokens)
  {
    var wrappers := ExecuteRange(tokens);
    buff := Header(pkg) + wrappers + "\n";
  }

  /** The template's range over the tokens: one wrapper per token, in order. */
  method ExecuteRange(tokens: seq<StructToken>) returns (text: string)
    ensures text == FlatMap(Wrapper, tokens)
  {
    text := [];
    for i := 0 to |tokens|
      invariant text == FlatMap(Wrapper, tokens[..i])
    {
      var wrapper := ExecuteWrapper(tokens[i]);
      TakeSnoc(tokens, i);
      FlatMapSnoc(Wrapper, tokens[..i], tokens[i]);
      text := text + wrapper;
    }
    TakeAll(tokens);
  }

  /** One iteration of the range: the opening, the assignments, the closing. */
  method ExecuteWrapper(token: StructToken) returns (text: string)
    ensures text == Wrapper(token)
  {
    var copies := ExecuteAssignments(token.fields);
    text := WrapperOpen(token.name) + copies + WrapperClose();
  }

  /** The inner range over a token's fields: one assignment per field, in order. */
  method ExecuteAssignments(fields: seq<FieldToken>) returns (text: string)
    ensures text == FlatMap(Assignment, fields)
  {
    text := [];
    for j := 0 to |fields|
      invariant text == FlatMap(Assignment, fields[..j])
    {
      var copy := Assignment(fields[j]);
      TakeSnoc(fields, j);
      FlatMapSnoc(Assignment, fields[..j], fields[j]);
      text := text + copy;
    }
    TakeAll(fields);
  }

  // ---------------------------------------------------------------------
  // The output file.

  /** The output file after a run: left alone, or created (or truncated) with some text. */
  datatype OutputFile = Untouched | Written(text: string)

  /** The error generate returns, if any, and the state of the output file. */
  datatype Outcome = Outcome(err: Option<string>, file: OutputFile)

  /** The text left in the created file: the formatted source, or nothing when formatting fails. */
  function FileText(formatted: Result<string, string>): string
  {
    if formatted.Success? then formatted.value else ""
  }

  /** What the created file ends up holding: the template output after format.Source. */
  function FormattedScans(pkg: string, tokens: seq<StructToken>, format: string -> Result<string, string>): string
  {
    FileText(format(ScansText(pkg, tokens)))
  }

  /**
   * generate. createErr is what os.Create reports for the output path;
   * format stands for format.Source. A formatting error is not reported:
   * the file has been created by then and is left empty.
   */
  method Generate(pkg: string, tokens: seq<StructToken>, createErr: Option<string>,
                  format: string -> Result<string, string>) returns (out: Outcome)
    ensures |tokens| < 1 ==> out == Outcome(Some(NoStructsFound()), Untouched)
    ensures |tokens| >= 1 && createErr.Some? ==> out == Outcome(createErr, Untouched)
    ensures |tokens| >= 1 && createErr.None? ==> out == Outcome(None, Written(FormattedScans(pkg, tokens, format)))
  {
    if |tokens| < 1 {
      return Outcome(Some(NoStructsFound()), Untouched);
    }
    if createErr.Some? {
      return Outcome(createErr, Untouched);
    }
    var text := ExecuteAndFormat(pkg, tokens, format);
    return Outcome(None, Written(text));
  }

  /** The template executed into a buffer, format.Source on it, and the copy to the file. */
  method ExecuteAndFormat(pkg: string, tokens: seq<StructToken>, format: string -> Result<string, string>)
    returns (text: string)
    ensures text == FormattedScans(pkg, tokens, format)
  {
    var buff := Execute(pkg, tokens);
    var source := format(buff);
    if source.Failure? {
      return "";
    }
    return source.value;
  }

  // ---------------------------------------------------------------------
  // The shape of the rendered text.

  /** Each token's wrapper stands in the text between the header plus the earlier wrappers and the later ones. */
  lemma WrapperAt(pkg: string, tokens: seq<StructToken>, i: nat)
    requires i < |tokens|
    ensures ScansText(pkg, tokens) ==
      (Header(pkg) + FlatMap(Wrapper, tokens[..i])) + Wrapper(tokens[i]) + (FlatMap(Wrapper, tokens[i + 1..]) + "\n")
  {
    FramedSplit(Wrapper, Header(pkg), tokens, "\n", i);
  }

  /** The wrappers come in token order. */
  lemma WrappersInOrder(pkg: string, tokens: seq<StructToken>, i: nat, j: nat)
    requires i < j < |tokens|
    ensures InOrder(ScansText(pkg, tokens), Wrapper(tokens[i]), Wrapper(tokens[j]))
  {
    InOrderSplit(Wrapper, Header(pkg), tokens, "\n", i, j);
  }

  /** Within a wrapper, the assignments come in field order. */
  lemma AssignmentsInOrder(token: StructToken, i: nat, j: nat)
    requires i < j < |token.fields|
    ensures InOrder(Wrapper(token), Assignment(token.fields[i]), Assignment(token.fields[j]))
  {
    InOrderSplit(Assignment, WrapperOpen(token.name), token.fields, WrapperClose(), i, j);
  }

  /** Every field of every token gets its assignment line in the output. */
  lemma FieldRendered(pkg: string, tokens: seq<StructToken>, i: nat, j: nat)
    requires i < |tokens| && j < |tokens[i].fields|
    ensures Occurs(ScansText(pkg, tokens), Assignment(tokens[i].fields[j]))
  {
    var token := tokens[i];
    OccursSplit(Assignment, WrapperOpen(token.name), token.fields, WrapperClose(), j);
    OccursFrame(Assignment(token.fields[j]), Wrapper(token),
      Header(pkg) + FlatMap(Wrapper, tokens[..i]), FlatMap(Wrapper, tokens[i + 1..]) + "\n");
    WrapperAt(pkg, tokens, i);
  }

  /** The output starts with the header and ends with a newline. */
  lemma Framing(pkg: string, tokens: seq<StructToken>)
    ensures ScansText(pkg, tokens)[..|Header(pkg)|] == Header(pkg)
    ensures ScansText(pkg, tokens)[|ScansText(pkg, tokens)| - 1] == '\n'
  {
    PrefixOf(Header(pkg), FlatMap(Wrapper, tokens) + "\n");
    AppendAssoc(Header(pkg), FlatMap(Wrapper, tokens), "\n");
  }
}
