/**
 * The type describer: the mutually recursive rules that turn a field's
 * type expression into the type string the generator records, or into ""
 * when the shape is not supported.
 */
module Describe {
  import opened Wrappers
  import opened Seqs
  import opened GoAst

  /** parseIdent: an identifier is described by its own name. */
  function ParseIdent(name: string): string
  {
    name
  }

  /** parseSelector: `X.Sel`, only when X is a plain identifier. */
  function ParseSelector(x: Expr, sel: string): string
  {
    if x.Ident? then ParseIdent(x.name) + "." + sel else ""
  }

  /** parseArray: the length, if any, is not looked at; nested arrays have no case. */
  function ParseArray(len: Option<string>, elt: Expr): string
    decreases elt
  {
    var arrayType :=
      match elt
      case Ident(name) => ParseIdent(name)
      case Selector(x, sel) => ParseSelector(x, sel)
      case StarExpr(x) => ParseStar(x)
      case _ => "";
    if arrayType == "" then "" else "[]" + arrayType
  }

  /** parseStar: pointers to pointers have no case. */
  function ParseStar(x: Expr): string
    decreases x
  {
    var starType :=
      match x
      case Ident(name) => ParseIdent(name)
      case Selector(y, sel) => ParseSelector(y, sel)
      case ArrayType(len, elt) => ParseArray(len, elt)
      case _ => "";
    if starType == "" then "" else "*" + starType
  }

  /** The type switch of parseCode that picks a rule for a field line's type. */
  function FieldType(e: Expr): string
  {
    match e
    case Ident(name) => ParseIdent(name)
    case Selector(x, sel) => ParseSelector(x, sel)
    case ArrayType(len, elt) => ParseArray(len, elt)
    case StarExpr(x) => ParseStar(x)
    case _ => ""
  }

  // ---------------------------------------------------------------------
  // The supported grammar, stated independently of the rules above: a
  // chain of slice and pointer prefixes, never the same one twice in a
  // row, ending in a named type (an identifier or pkg.Name).

  datatype Layer = SliceOf | PointerTo

  /** The chain of `[]`/`[n]` and `*` prefixes of a type expression. */
  function Layers(e: Expr): seq<Layer>
  {
    match e
    case ArrayType(_, elt) => [SliceOf] + Layers(elt)
    case StarExpr(x) => [PointerTo] + Layers(x)
    case _ => []
  }

  /** What is left once the prefixes are taken off. */
  function Core(e: Expr): Expr
  {
    match e
    case ArrayType(_, elt) => Core(elt)
    case StarExpr(x) => Core(x)
    case _ => e
  }

  /** A (non-empty) identifier or a selector whose left side is an identifier. */
  predicate NamedType(e: Expr)
  {
    match e
    case Ident(name) => name != ""
    case Selector(x, _) => x.Ident?
    case _ => false
  }

  /** No array of arrays and no pointer to pointer. */
  predicate Alternating(ls: seq<Layer>)
  {
    forall i :: 0 <= i < |ls| - 1 ==> ls[i] != ls[i + 1]
  }

  predicate Supported(e: Expr)
  {
    NamedType(Core(e)) && Alternating(Layers(e))
  }

  function LayerText(ls: seq<Layer>): string
  {
    if ls == [] then ""
    else (if ls[0] == SliceOf then "[]" else "*") + LayerText(ls[1..])
  }

  /** Whether some array on the prefix chain has an explicit length. */
  predicate HasFixedLength(e: Expr)
  {
    match e
    case ArrayType(len, elt) => len.Some? || HasFixedLength(elt)
    case StarExpr(x) => HasFixedLength(x)
    case _ => false
  }

  /** The same type with every array length on the prefix chain removed. */
  function SliceForm(e: Expr): Expr
  {
    match e
    case ArrayType(_, elt) => ArrayType(None, SliceForm(elt))
    case StarExpr(x) => StarExpr(SliceForm(x))
    case _ => e
  }

  // ---------------------------------------------------------------------
  // The rules, one lemma each.

  /** A selector is described as X.Sel exactly when X is an identifier. */
  lemma SelectorRule(x: Expr, sel: string)
    ensures ParseSelector(x, sel) != "" <==> x.Ident?
    ensures x.Ident? ==> ParseSelector(x, sel) == x.name + "." + sel
  {
  }

  /**
   * An array is "[]" followed by its element's description when the element
   * is an identifier, a selector or a pointer that describes to something;
   * anything else, an array element included, gives "".
   */
  lemma ArrayRule(len: Option<string>, elt: Expr)
    ensures ParseArray(len, elt) ==
      if (elt.Ident? || elt.Selector? || elt.StarExpr?) && FieldType(elt) != ""
      then "[]" + FieldType(elt) else ""
    ensures elt.ArrayType? ==> ParseArray(len, elt) == ""
  {
  }

  /**
   * A pointer is "*" followed by its pointee's description when the pointee
   * is an identifier, a selector or an array that describes to something;
   * anything else, a pointer pointee included, gives "".
   */
  lemma PointerRule(x: Expr)
    ensures ParseStar(x) ==
      if (x.Ident? || x.Selector? || x.ArrayType?) && FieldType(x) != ""
      then "*" + FieldType(x) else ""
    ensures x.StarExpr? ==> ParseStar(x) == ""
  {
  }

  /** Only the four handled node kinds can give a field line a type. */
  lemma Dispatch(e: Expr)
    ensures FieldType(e) != "" ==> e.Ident? || e.Selector? || e.ArrayType? || e.StarExpr?
    ensures e.StructType? || e.Other? ==> FieldType(e) == ""
  {
  }

  // ---------------------------------------------------------------------
  // The rules against the grammar.

  lemma AlternatingCons(l: Layer, ls: seq<Layer>)
    ensures Alternating([l] + ls) <==> Alternating(ls) && (ls == [] || ls[0] != l)
  {
    var s := [l] + ls;
    if Alternating(s) {
      forall i | 0 <= i < |ls| - 1 ensures ls[i] != ls[i + 1] {
        assert s[i + 1] == ls[i] && s[i + 2] == ls[i + 1];
      }
      if ls != [] {
        assert s[0] == l && s[1] == ls[0];
      }
    } else {
      var i :| 0 <= i < |s| - 1 && s[i] == s[i + 1];
      if i > 0 {
        assert s[i] == ls[i - 1] && s[i + 1] == ls[i];
      }
    }
  }

  lemma NamedTypeText(e: Expr)
    requires NamedType(e)
    ensures GoText(e) != ""
  {
    if e.Selector? {
      assert GoText(e) == GoText(e.x) + "." + e.sel;
    }
  }

  /** The description the grammar gives: prefixes, then the core's Go text; "" off the grammar. */
  function Closed(e: Expr): string
  {
    if Supported(e) then LayerText(Layers(e)) + GoText(Core(e)) else ""
  }

  lemma ClosedArray(len: Option<string>, elt: Expr)
    requires !elt.ArrayType?
    ensures Closed(ArrayType(len, elt)) == if Closed(elt) == "" then "" else "[]" + Closed(elt)
  {
    var e := ArrayType(len, elt);
    AlternatingCons(SliceOf, Layers(elt));
    assert Layers(e) == [SliceOf] + Layers(elt);
    assert ([SliceOf] + Layers(elt))[1..] == Layers(elt);
    assert Supported(e) == Supported(elt);
    if Supported(elt) {
      NamedTypeText(Core(elt));
      AppendAssoc("[]", LayerText(Layers(elt)), GoText(Core(elt)));
    }
  }

  lemma ClosedStar(x: Expr)
    requires !x.StarExpr?
    ensures Closed(StarExpr(x)) == if Closed(x) == "" then "" else "*" + Closed(x)
  {
    var e := StarExpr(x);
    AlternatingCons(PointerTo, Layers(x));
    assert Layers(e) == [PointerTo] + Layers(x);
    assert ([PointerTo] + Layers(x))[1..] == Layers(x);
    assert Supported(e) == Supported(x);
    if Supported(x) {
      NamedTypeText(Core(x));
      AppendAssoc("*", LayerText(Layers(x)), GoText(Core(x)));
    }
  }

  lemma ClosedRepeat(e: Expr)
    requires (e.ArrayType? && e.elt.ArrayType?) || (e.StarExpr? && e.x.StarExpr?)
    ensures Closed(e) == ""
  {
    if e.ArrayType? {
      assert Layers(e) == [SliceOf] + ([SliceOf] + Layers(e.elt.elt));
    } else {
      assert Layers(e) == [PointerTo] + ([PointerTo] + Layers(e.x.x));
    }
    var ls := Layers(e);
    assert |ls| >= 2 && ls[0] == ls[1];
    assert !Alternating(ls);
  }

  /**
   * The describer in closed form: a supported type is described by its
   * prefixes followed by the Go text of its named core, and every other
   * type by "".
   */
  lemma {:induction false} DescribeExact(e: Expr)
    ensures FieldType(e) == Closed(e)
  {
    match e
    case Ident(_) =>
      assert LayerText(Layers(e)) == "";
    case Selector(x, sel) =>
      assert LayerText(Layers(e)) == "";
      if x.Ident? {
        assert GoText(e) == x.name + "." + sel;
      }
    case StructType(_) =>
    case Other(_) =>
    case ArrayType(len, elt) =>
      ArrayRule(len, elt);
      if elt.ArrayType? {
        ClosedRepeat(e);
      } else {
        DescribeExact(elt);
        ClosedArray(len, elt);
      }
    case StarExpr(x) =>
      PointerRule(x);
      if x.StarExpr? {
        ClosedRepeat(e);
      } else {
        DescribeExact(x);
        ClosedStar(x);
      }
  }

  /** A field line gets a type exactly when its type expression is supported. */
  lemma DescribedIffSupported(e: Expr)
    ensures FieldType(e) != "" <==> Supported(e)
  {
    DescribeExact(e);
    if Supported(e) {
      NamedTypeText(Core(e));
    }
  }

  lemma {:induction false} SliceFormShape(e: Expr)
    ensures Layers(SliceForm(e)) == Layers(e) && Core(SliceForm(e)) == Core(e)
  {
    match e
    case ArrayType(_, elt) => SliceFormShape(elt);
    case StarExpr(x) => SliceFormShape(x);
    case _ =>
  }

  lemma LayerTextCons(l: Layer, ls: seq<Layer>)
    ensures LayerText([l] + ls) == (if l == SliceOf then "[]" else "*") + LayerText(ls)
  {
    assert ([l] + ls)[0] == l && ([l] + ls)[1..] == ls;
  }

  lemma {:induction false} SliceFormText(e: Expr)
    ensures GoText(SliceForm(e)) == LayerText(Layers(e)) + GoText(Core(e))
  {
    match e
    case ArrayType(_, elt) =>
      SliceFormText(elt);
      LayerTextCons(SliceOf, Layers(elt));
      assert GoText(SliceForm(e)) == "[]" + GoText(SliceForm(elt)) by {
        assert "[" + "" + "]" == "[]";
      }
      AppendAssoc("[]", LayerText(Layers(elt)), GoText(Core(elt)));
    case StarExpr(x) =>
      SliceFormText(x);
      LayerTextCons(PointerTo, Layers(x));
      AppendAssoc("*", LayerText(Layers(x)), GoText(Core(x)));
    case _ =>
  }

  lemma {:induction false} SliceFormIdentity(e: Expr)
    requires !HasFixedLength(e)
    ensures SliceForm(e) == e
  {
    match e
    case ArrayType(_, elt) => SliceFormIdentity(elt);
    case StarExpr(x) => SliceFormIdentity(x);
    case _ =>
  }

  /**
   * Round trip: a supported type is described by its own Go text, except
   * that array lengths are dropped (`[3]int` is described as `[]int`).
   */
  lemma RoundTrip(e: Expr)
    requires Supported(e)
    ensures FieldType(e) == GoText(SliceForm(e))
    ensures !HasFixedLength(e) ==> FieldType(e) == GoText(e)
  {
    DescribeExact(e);
    SliceFormText(e);
    SliceFormShape(e);
    if !HasFixedLength(e) {
      SliceFormIdentity(e);
    }
  }

  /** Array lengths never change a description, supported or not. */
  lemma LengthIgnored(e: Expr)
    ensures FieldType(SliceForm(e)) == FieldType(e)
  {
    DescribeExact(e);
    DescribeExact(SliceForm(e));
    SliceFormShape(e);
  }

  /** Two shapes named in the rules' comments: `*[]time.Time` and `[]*sql.NullString`. */
  lemma PointerToSliceExample()
    ensures FieldType(StarExpr(ArrayType(None, Selector(Ident("time"), "Time")))) == "*[]time.Time"
  {
    var time := Selector(Ident("time"), "Time");
    SelectorRule(Ident("time"), "Time");
    ArrayRule(None, time);
    PointerRule(ArrayType(None, time));
    assert "*" + ("[]" + ("time" + "." + "Time")) == "*[]time.Time";
  }

  lemma SliceOfPointerExample()
    ensures FieldType(ArrayType(None, StarExpr(Selector(Ident("sql"), "NullString")))) == "[]*sql.NullString"
  {
    var ns := Selector(Ident("sql"), "NullString");
    SelectorRule(Ident("sql"), "NullString");
    PointerRule(ns);
    ArrayRule(None, StarExpr(ns));
    assert "[]" + ("*" + ("sql" + "." + "NullString")) == "[]*sql.NullString";
  }

  /** A fixed-length array is described as a slice. */
  lemma FixedLengthExample()
    ensures FieldType(ArrayType(Some("3"), Ident("int"))) == "[]int"
    ensures GoText(ArrayType(Some("3"), Ident("int"))) == "[3]int"
  {
  }

  /** The gaps: nested arrays, pointers to pointers, deep selectors, maps. */
  lemma UnsupportedExamples()
    ensures FieldType(ArrayType(None, ArrayType(None, Ident("byte")))) == ""
    ensures FieldType(StarExpr(StarExpr(Ident("bool")))) == ""
    ensures FieldType(Selector(Selector(Ident("a"), "b"), "C")) == ""
    ensures FieldType(Other("map[string]int")) == ""
  {
  }
}
