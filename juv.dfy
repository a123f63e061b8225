/**
 * The command's main: every input file's struct tokens collected in file
 * order, the first parse error ending the run, then generate on the
 * collected tokens.
 */
module Juv {
  import opened Wrappers
  import opened Seqs
  import opened GoAst
  import opened Extract
  import opened Render

  /** The outcome of the parse for one input file: a syntax tree or a parse error. */
  type Parsed = Result<File, string>

  /**
   * The loop of main as a fold: the tokens of the files in order, or the
   * error of the first file that did not parse.
   */
  function Collected(files: seq<Parsed>): Result<seq<StructToken>, string>
  {
    if files == [] then Success([])
    else
      var last := files[|files| - 1];
      match Collected(files[..|files| - 1])
      case Failure(e) => Failure(e)
      case Success(ts) =>
        if last.Failure? then Failure(last.error) else Success(ts + StructTokens(last.value.decls))
  }

  /** The declarations of a file that parsed; none for one that did not. */
  function FileDecls(f: Parsed): seq<Decl>
  {
    if f.Success? then f.value.decls else []
  }

  /** main's loop over the files, stopping at the first parse error as log.Fatal does. */
  method CollectTokens(files: seq<Parsed>) returns (r: Result<seq<StructToken>, string>)
    ensures r == Collected(files)
  {
    var structTokens: seq<StructToken> := [];
    for i := 0 to |files|
      invariant Collected(files[..i]) == Success(structTokens)
    {
      var f := files[i];
      TakeSnoc(files, i);
      SnocParts(files[..i], f);
      var tokens := ParseCode(f);
      if tokens.Failure? {
        PrefixFailure(files, i + 1);
        return tokens;
      }
      structTokens := structTokens + tokens.value;
    }
    TakeAll(files);
    return Success(structTokens);
  }

  /** Once a prefix of the files fails, the whole list fails with the same error. */
  lemma {:induction false} PrefixFailure(files: seq<Parsed>, n: nat)
    requires n <= |files|
    requires Collected(files[..n]).Failure?
    ensures Collected(files) == Collected(files[..n])
  {
    if n < |files| {
      var init := files[..|files| - 1];
      assert init[..n] == files[..n];
      PrefixFailure(init, n);
    } else {
      TakeAll(files);
    }
  }

  /** When every file parses, the result is the tokens of all their declarations in order. */
  lemma {:induction false} AllParsed(files: seq<Parsed>)
    requires forall i :: 0 <= i < |files| ==> files[i].Success?
    ensures Collected(files) == Success(StructTokens(FlatMap(FileDecls, files)))
  {
    if files != [] {
      var init, last := files[..|files| - 1], files[|files| - 1];
      AllParsed(init);
      FlatMapSnoc(FileDecls, init, last);
      assert init + [last] == files;
      FlatMapAppend(DeclOutput, FlatMap(FileDecls, init), last.value.decls);
    }
  }

  /** The run fails exactly when some file does not parse, and then with the first such file's error. */
  lemma {:induction false} FirstError(files: seq<Parsed>)
    ensures Collected(files).Failure? <==> exists i :: 0 <= i < |files| && files[i].Failure?
    ensures Collected(files).Failure? ==>
      exists i :: 0 <= i < |files| && files[i].Failure? && Collected(files).error == files[i].error &&
        forall k :: 0 <= k < i ==> files[k].Success?
  {
    if files != [] {
      var init, last := files[..|files| - 1], files[|files| - 1];
      FirstError(init);
      assert forall k :: 0 <= k < |init| ==> init[k] == files[k];
    }
  }

  // ---------------------------------------------------------------------
  // The whole run.

  /** How a run ends: the message log.Fatal reports, if any, and the state of the output file. */
  datatype Exit = Exit(fatal: Option<string>, file: OutputFile)

  /** The prefix main puts before an error of generate. */
  function GenerateFailed(): string { "couldn't generate f:" }

  /**
   * main after the files are found and the package name is known: collect
   * the tokens, then generate. createErr and format are as for Generate.
   */
  method Run(pkg: string, files: seq<Parsed>, createErr: Option<string>,
             format: string -> Result<string, string>) returns (exit: Exit)
    ensures Collected(files).Failure? ==> exit == Exit(Some(Collected(files).error), Untouched)
    ensures Collected(files).Success? && |Collected(files).value| < 1 ==>
      exit == Exit(Some(GenerateFailed() + NoStructsFound()), Untouched)
    ensures Collected(files).Success? && |Collected(files).value| >= 1 && createErr.Some? ==>
      exit == Exit(Some(GenerateFailed() + createErr.value), Untouched)
    ensures Collected(files).Success? && |Collected(files).value| >= 1 && createErr.None? ==>
      exit == Exit(None, Written(FormattedScans(pkg, Collected(files).value, format)))
  {
    var collected := CollectTokens(files);
    if collected.Failure? {
      return Exit(Some(collected.error), Untouched);
    }
    exit := Finish(pkg, collected.value, createErr, format);
  }

  /** The call of generate at the end of main, and log.Fatal on its error. */
  method Finish(pkg: string, tokens: seq<StructToken>, createErr: Option<string>,
                format: string -> Result<string, string>) returns (exit: Exit)
    ensures |tokens| < 1 ==> exit == Exit(Some(GenerateFailed() + NoStructsFound()), Untouched)
    ensures |tokens| >= 1 && createErr.Some? ==> exit == Exit(Some(GenerateFailed() + createErr.value), Untouched)
    ensures |tokens| >= 1 && createErr.None? ==> exit == Exit(None, Written(FormattedScans(pkg, tokens, format)))
  {
    var out := Generate(pkg, tokens, createErr, format);
    if out.err.Some? {
      return Exit(Some(GenerateFailed() + out.err.value), out.file);
    }
    return Exit(None, out.file);
  }
}
