/**
 * Struct and field extraction: the walk of parseCode over a parsed file,
 * which keeps struct type declarations and flattens their field lines into
 * one token per field name.
 */
module Extract {
  import opened Wrappers
  import opened Seqs
  import opened GoAst
  import opened Describe

  /** fieldToken: a field name and its described type. */
  datatype FieldToken = FieldToken(name: string, typ: string)

  /** structToken: a struct's name and its kept fields, in declaration order. */
  datatype StructToken = StructToken(name: string, fields: seq<FieldToken>)

  // ---------------------------------------------------------------------
  // Specification functions: what the walk appends, element by element.

  /** One token per name on a line, in name order, every one with the line's type. */
  function LineTokens(names: seq<string>, typ: string): (r: seq<FieldToken>)
    ensures |r| == |names|
    ensures forall i :: 0 <= i < |names| ==> r[i] == FieldToken(names[i], typ)
  {
    if names == [] then [] else [FieldToken(names[0], typ)] + LineTokens(names[1..], typ)
  }

  /** The tokens of one field line: none when its type has no description. */
  function LineOutput(line: Field): seq<FieldToken>
  {
    var typ := FieldType(line.typ);
    if typ == "" then [] else LineTokens(line.names, typ)
  }

  /** The fields of a struct: the lines' tokens, line after line. */
  function FieldTokens(lines: seq<Field>): seq<FieldToken>
  {
    FlatMap(LineOutput, lines)
  }

  /** A type spec whose type is a struct. */
  predicate IsStructSpec(spec: Spec)
  {
    spec.TypeSpec? && spec.typ.StructType?
  }

  /** The token of one spec: only a type spec whose type is a struct has one. */
  function SpecOutput(spec: Spec): seq<StructToken>
  {
    if IsStructSpec(spec) then [StructToken(spec.name, FieldTokens(spec.typ.fields))] else []
  }

  function SpecTokens(specs: seq<Spec>): seq<StructToken>
  {
    FlatMap(SpecOutput, specs)
  }

  /** Only general declarations hold type specs. */
  function DeclOutput(decl: Decl): seq<StructToken>
  {
    if decl.GenDecl? then SpecTokens(decl.specs) else []
  }

  /** The struct tokens of a file's declarations. */
  function StructTokens(decls: seq<Decl>): seq<StructToken>
  {
    FlatMap(DeclOutput, decls)
  }

  // ---------------------------------------------------------------------
  // parseCode

  /**
   * parseCode on the outcome of parser.ParseFile: a parse error is passed
   * on unchanged, otherwise the file's struct tokens are returned.
   */
  method ParseCode(parsed: Result<File, string>) returns (r: Result<seq<StructToken>, string>)
    ensures parsed.Failure? ==> r == Failure(parsed.error)
    ensures parsed.Success? ==> r == Success(StructTokens(parsed.value.decls))
  {
    if parsed.Failure? {
      return Failure(parsed.error);
    }
    var decls := parsed.value.decls;
    var structTokens: seq<StructToken> := [];
    for i := 0 to |decls|
      invariant structTokens == StructTokens(decls[..i])
    {
      var decl := decls[i];
      TakeSnoc(decls, i);
      FlatMapSnoc(DeclOutput, decls[..i], decl);
      if decl.GenDecl? {
        var tokens := TypeSpecTokens(decl.specs);
        structTokens := structTokens + tokens;
      } else {
        AppendEmpty(structTokens);
      }
    }
    TakeAll(decls);
    return Success(structTokens);
  }

  /** The loop of parseCode over the specs of one general declaration. */
  method TypeSpecTokens(specs: seq<Spec>) returns (tokens: seq<StructToken>)
    ensures tokens == SpecTokens(specs)
  {
    tokens := [];
    for j := 0 to |specs|
      invariant tokens == SpecTokens(specs[..j])
    {
      var spec := specs[j];
      TakeSnoc(specs, j);
      FlatMapSnoc(SpecOutput, specs[..j], spec);
      if IsStructSpec(spec) {
        var fields := StructFields(spec.typ.fields);
        tokens := tokens + [StructToken(spec.name, fields)];
      } else {
        AppendEmpty(tokens);
      }
    }
    TakeAll(specs);
  }

  /** The loop of parseCode over one struct's field lines. */
  method StructFields(lines: seq<Field>) returns (fields: seq<FieldToken>)
    ensures fields == FieldTokens(lines)
  {
    fields := [];
    for k := 0 to |lines|
      invariant fields == FieldTokens(lines[..k])
    {
      var fieldLine := lines[k];
      TakeSnoc(lines, k);
      FlatMapSnoc(LineOutput, lines[..k], fieldLine);
      var fieldType := FieldType(fieldLine.typ);
      if fieldType == "" {
        AppendEmpty(fields);
        continue;
      }
      var names := fieldLine.names;
      var fieldTokens: seq<FieldToken> := [];
      for m := 0 to |names|
        invariant |fieldTokens| == m
        invariant forall n :: 0 <= n < m ==> fieldTokens[n] == FieldToken(names[n], fieldType)
      {
        fieldTokens := fieldTokens + [FieldToken(ParseIdent(names[m]), fieldType)];
      }
      assert fieldTokens == LineTokens(names, fieldType);
      fields := fields + fieldTokens;
    }
    TakeAll(lines);
  }

  // ---------------------------------------------------------------------
  // Field flattening, stated against the supported grammar.

  /** The line itself when its type is supported. */
  function KeepLine(line: Field): seq<Field>
  {
    if Supported(line.typ) then [line] else []
  }

  /** The lines whose type is supported, in their order. */
  function Kept(lines: seq<Field>): seq<Field>
  {
    FlatMap(KeepLine, lines)
  }

  function LineNames(line: Field): seq<string>
  {
    line.names
  }

  /** Every name of every line, line after line (an embedded field has none). */
  function AllNames(lines: seq<Field>): seq<string>
  {
    FlatMap(LineNames, lines)
  }

  /** One token per name, typed by the Go text of the line's type with array lengths dropped. */
  function ExpandLine(line: Field): seq<FieldToken>
  {
    LineTokens(line.names, GoText(SliceForm(line.typ)))
  }

  function TokenNames(tokens: seq<FieldToken>): (r: seq<string>)
    ensures |r| == |tokens| && forall i :: 0 <= i < |tokens| ==> r[i] == tokens[i].name
  {
    seq(|tokens|, i requires 0 <= i < |tokens| => tokens[i].name)
  }

  lemma {:induction false} KeptAllSupported(lines: seq<Field>)
    ensures forall i :: 0 <= i < |Kept(lines)| ==> Supported(Kept(lines)[i].typ)
  {
    if lines != [] {
      var init, last := lines[..|lines| - 1], lines[|lines| - 1];
      KeptAllSupported(init);
      assert Kept(lines) == Kept(init) + KeepLine(last);
    }
  }

  /**
   * The fields of a struct are its supported lines expanded in order: one
   * token per name, each typed by the Go text of its line's type; the lines
   * whose type is unsupported are dropped with all their names.
   */
  lemma {:induction false} FieldFlattening(lines: seq<Field>)
    ensures FieldTokens(lines) == FlatMap(ExpandLine, Kept(lines))
  {
    if lines != [] {
      var init, last := lines[..|lines| - 1], lines[|lines| - 1];
      FieldFlattening(init);
      DescribedIffSupported(last.typ);
      if Supported(last.typ) {
        RoundTrip(last.typ);
        FlatMapAppend(ExpandLine, Kept(init), [last]);
        assert [last][..0] == [];
      } else {
        assert Kept(lines) == Kept(init) + [];
        AppendEmpty(Kept(init));
        AppendEmpty(FieldTokens(init));
      }
    }
  }

  lemma {:induction false} KeptIdentity(lines: seq<Field>)
    requires forall i :: 0 <= i < |lines| ==> Supported(lines[i].typ)
    ensures Kept(lines) == lines
  {
    if lines != [] {
      KeptIdentity(lines[..|lines| - 1]);
    }
  }

  /** Dropping the unsupported lines beforehand changes nothing. */
  lemma UnsupportedLinesDropped(lines: seq<Field>)
    ensures FieldTokens(lines) == FieldTokens(Kept(lines))
  {
    FieldFlattening(lines);
    FieldFlattening(Kept(lines));
    KeptAllSupported(lines);
    KeptIdentity(Kept(lines));
  }

  lemma {:induction false} ExpandedNames(lines: seq<Field>)
    ensures TokenNames(FlatMap(ExpandLine, lines)) == AllNames(lines)
  {
    if lines != [] {
      ExpandedNames(lines[..|lines| - 1]);
    }
  }

  lemma {:induction false} KeptNamesBound(lines: seq<Field>)
    ensures |AllNames(Kept(lines))| <= |AllNames(lines)|
  {
    if lines != [] {
      var init, last := lines[..|lines| - 1], lines[|lines| - 1];
      KeptNamesBound(init);
      FlatMapAppend(LineNames, Kept(init), KeepLine(last));
      if Supported(last.typ) {
        assert [last][..0] == [];
      }
    }
  }

  /**
   * The field names are those of the supported lines, in order, embedded
   * fields contributing none; there are never more fields than names, and
   * exactly as many when every line's type is supported.
   */
  lemma FieldNames(lines: seq<Field>)
    ensures TokenNames(FieldTokens(lines)) == AllNames(Kept(lines))
    ensures |FieldTokens(lines)| <= |AllNames(lines)|
    ensures (forall i :: 0 <= i < |lines| ==> Supported(lines[i].typ)) ==> |FieldTokens(lines)| == |AllNames(lines)|
  {
    FieldFlattening(lines);
    ExpandedNames(Kept(lines));
    KeptNamesBound(lines);
    if forall i :: 0 <= i < |lines| ==> Supported(lines[i].typ) {
      KeptIdentity(lines);
    }
  }

  /** A name of a line paired with the line's non-empty description. */
  predicate FieldOf(lines: seq<Field>, t: FieldToken)
  {
    exists i, j :: 0 <= i < |lines| && 0 <= j < |lines[i].names| &&
      FieldType(lines[i].typ) != "" && t == FieldToken(lines[i].names[j], FieldType(lines[i].typ))
  }

  predicate FieldOfLine(line: Field, t: FieldToken)
  {
    FieldType(line.typ) != "" && exists j :: 0 <= j < |line.names| && t == FieldToken(line.names[j], FieldType(line.typ))
  }

  lemma LineOutputMembership(line: Field, t: FieldToken)
    ensures t in LineOutput(line) <==> FieldOfLine(line, t)
  {
    var out := LineOutput(line);
    if t in out {
      var j :| 0 <= j < |out| && out[j] == t;
    }
  }

  lemma FieldOfSnoc(init: seq<Field>, last: Field, t: FieldToken)
    ensures FieldOf(init + [last], t) <==> (FieldOf(init, t) || FieldOfLine(last, t))
  {
    var lines := init + [last];
    if FieldOf(lines, t) {
      var i, j :| 0 <= i < |lines| && 0 <= j < |lines[i].names| &&
        FieldType(lines[i].typ) != "" && t == FieldToken(lines[i].names[j], FieldType(lines[i].typ));
      if i < |init| {
        assert lines[i] == init[i];
      } else {
        assert lines[i] == last;
      }
    }
    if FieldOf(init, t) {
      var i, j :| 0 <= i < |init| && 0 <= j < |init[i].names| &&
        FieldType(init[i].typ) != "" && t == FieldToken(init[i].names[j], FieldType(init[i].typ));
      assert lines[i] == init[i];
    }
    if FieldOfLine(last, t) {
      var j :| 0 <= j < |last.names| && t == FieldToken(last.names[j], FieldType(last.typ));
      assert lines[|init|] == last;
    }
  }

  /**
   * A token is a field of the struct exactly when it pairs a name of some
   * line with that line's description, and the description is not empty.
   */
  lemma {:induction false} FieldMembership(lines: seq<Field>, t: FieldToken)
    ensures t in FieldTokens(lines) <==> FieldOf(lines, t)
  {
    if lines != [] {
      var init, last := lines[..|lines| - 1], lines[|lines| - 1];
      FieldMembership(init, t);
      LineOutputMembership(last, t);
      assert lines == init + [last];
      FieldOfSnoc(init, last, t);
    }
  }

  // ---------------------------------------------------------------------
  // Struct selection.

  function DeclSpecs(decl: Decl): seq<Spec>
  {
    if decl.GenDecl? then decl.specs else []
  }

  /** The specs of the general declarations, declaration after declaration. */
  function AllSpecs(decls: seq<Decl>): seq<Spec>
  {
    FlatMap(DeclSpecs, decls)
  }

  function KeepStructSpec(spec: Spec): seq<Spec>
  {
    if IsStructSpec(spec) then [spec] else []
  }

  /** The struct type specs among the specs, in order. */
  function StructSpecs(specs: seq<Spec>): seq<Spec>
  {
    FlatMap(KeepStructSpec, specs)
  }

  lemma {:induction false} StructTokensFlat(decls: seq<Decl>)
    ensures StructTokens(decls) == SpecTokens(AllSpecs(decls))
  {
    if decls != [] {
      var init, last := decls[..|decls| - 1], decls[|decls| - 1];
      StructTokensFlat(init);
      FlatMapAppend(SpecOutput, AllSpecs(init), DeclSpecs(last));
    }
  }

  function TokenOf(spec: Spec): StructToken
    requires IsStructSpec(spec)
  {
    StructToken(spec.name, FieldTokens(spec.typ.fields))
  }

  lemma {:induction false} SpecTokensAreStructSpecs(specs: seq<Spec>)
    ensures |SpecTokens(specs)| == |StructSpecs(specs)|
    ensures forall i :: 0 <= i < |StructSpecs(specs)| ==>
      IsStructSpec(StructSpecs(specs)[i]) && SpecTokens(specs)[i] == TokenOf(StructSpecs(specs)[i])
  {
    if specs != [] {
      SpecTokensAreStructSpecs(specs[..|specs| - 1]);
    }
  }

  /**
   * One token per struct type spec, in declaration-then-spec order, named
   * after it and holding its fields; function declarations, non-type specs
   * and type specs of other types contribute nothing.
   */
  lemma StructSelection(decls: seq<Decl>)
    ensures |StructTokens(decls)| == |StructSpecs(AllSpecs(decls))|
    ensures forall i :: 0 <= i < |StructTokens(decls)| ==>
      IsStructSpec(StructSpecs(AllSpecs(decls))[i]) &&
      StructTokens(decls)[i] == TokenOf(StructSpecs(AllSpecs(decls))[i])
  {
    StructTokensFlat(decls);
    SpecTokensAreStructSpecs(AllSpecs(decls));
  }
}
