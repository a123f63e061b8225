/** Sequence helpers: mapping each element to a sequence and concatenating the results. */
module Seqs {

  // ---------------------------------------------------------------------
  // Plain facts about slices and concatenation, kept apart so that proofs
  // about FlatMap can cite them instead of rediscovering them.

  lemma TakeSnoc<T>(s: seq<T>, i: nat)
    requires i < |s|
    ensures s[..i + 1] == s[..i] + [s[i]]
  {
  }

  lemma TakeAll<T>(s: seq<T>)
    ensures s[..|s|] == s
  {
  }

  lemma AppendEmpty<T>(s: seq<T>)
    ensures s + [] == s && [] + s == s
  {
  }

  lemma AppendAssoc<T>(x: seq<T>, y: seq<T>, z: seq<T>)
    ensures (x + y) + z == x + (y + z)
  {
  }

  lemma SnocParts<T>(s: seq<T>, x: T)
    ensures (s + [x])[..|s|] == s && (s + [x])[|s|] == x && |s + [x]| == |s| + 1
  {
  }

  lemma AppendLast<T>(a: seq<T>, b: seq<T>)
    requires b != []
    ensures a + b == (a + b[..|b| - 1]) + [b[|b| - 1]]
  {
  }

  lemma PrefixOf<T>(a: seq<T>, b: seq<T>)
    ensures (a + b)[..|a|] == a
  {
  }

  lemma SplitAt<T>(s: seq<T>, i: nat)
    requires i < |s|
    ensures s == s[..i + 1] + s[i + 1..] && s[..i + 1] == s[..i] + [s[i]]
  {
  }

  // ---------------------------------------------------------------------

  /** f applied to every element, results concatenated in order. */
  function FlatMap<A, B>(f: A -> seq<B>, s: seq<A>): seq<B>
  {
    if s == [] then [] else FlatMap(f, s[..|s| - 1]) + f(s[|s| - 1])
  }

  lemma FlatMapSnoc<A, B>(f: A -> seq<B>, s: seq<A>, x: A)
    ensures FlatMap(f, s + [x]) == FlatMap(f, s) + f(x)
  {
    SnocParts(s, x);
  }

  /** Concatenating the inputs concatenates the outputs. */
  lemma {:induction false} FlatMapAppend<A, B>(f: A -> seq<B>, a: seq<A>, b: seq<A>)
    ensures FlatMap(f, a + b) == FlatMap(f, a) + FlatMap(f, b)
  {
    if b == [] {
      AppendEmpty(a);
      AppendEmpty(FlatMap(f, a));
    } else {
      var b', last := b[..|b| - 1], b[|b| - 1];
      FlatMapAppend(f, a, b');
      AppendLast(a, b);
      FlatMapSnoc(f, a + b', last);
      AppendAssoc(FlatMap(f, a), FlatMap(f, b'), f(last));
    }
  }

  /** The output of element i sits between the outputs of the elements before and after it. */
  lemma FlatMapSplit<A, B>(f: A -> seq<B>, s: seq<A>, i: nat)
    requires i < |s|
    ensures FlatMap(f, s) == FlatMap(f, s[..i]) + f(s[i]) + FlatMap(f, s[i + 1..])
  {
    SplitAt(s, i);
    FlatMapAppend(f, s[..i + 1], s[i + 1..]);
    FlatMapSnoc(f, s[..i], s[i]);
  }

  /** FlatMapSplit inside a frame: a prefix before the outputs and a suffix after them. */
  lemma FramedSplit<A, B>(f: A -> seq<B>, pre: seq<B>, s: seq<A>, post: seq<B>, i: nat)
    requires i < |s|
    ensures pre + FlatMap(f, s) + post ==
      (pre + FlatMap(f, s[..i])) + f(s[i]) + (FlatMap(f, s[i + 1..]) + post)
  {
    FlatMapSplit(f, s, i);
    var a, x, c := FlatMap(f, s[..i]), f(s[i]), FlatMap(f, s[i + 1..]);
    AppendAssoc(pre, a + x, c);
    AppendAssoc(pre, a, x);
    AppendAssoc(pre + a + x, c, post);
  }

  /** x occurs in s. */
  ghost predicate Occurs<T(!new)>(s: seq<T>, x: seq<T>)
  {
    exists a, c :: s == a + x + c
  }

  lemma OccursIntro<T(!new)>(s: seq<T>, a: seq<T>, x: seq<T>, c: seq<T>)
    requires s == a + x + c
    ensures Occurs(s, x)
  {
  }

  /** Occurrence carries over to an enclosing sequence. */
  lemma OccursFrame<T(!new)>(s: seq<T>, x: seq<T>, pre: seq<T>, post: seq<T>)
    requires Occurs(x, s)
    ensures Occurs(pre + x + post, s)
  {
    var a, c :| x == a + s + c;
    AppendAssoc(pre, a + s, c);
    AppendAssoc(pre, a, s);
    AppendAssoc(pre + a + s, c, post);
    OccursIntro(pre + x + post, pre + a, s, c + post);
  }

  /** The output of every element occurs in the framed concatenation. */
  lemma OccursSplit<A, B(!new)>(f: A -> seq<B>, pre: seq<B>, s: seq<A>, post: seq<B>, i: nat)
    requires i < |s|
    ensures Occurs(pre + FlatMap(f, s) + post, f(s[i]))
  {
    FramedSplit(f, pre, s, post, i);
    OccursIntro(pre + FlatMap(f, s) + post, pre + FlatMap(f, s[..i]), f(s[i]), FlatMap(f, s[i + 1..]) + post);
  }

  /** x occurs in s, and y occurs after it. */
  ghost predicate InOrder<T(!new)>(s: seq<T>, x: seq<T>, y: seq<T>)
  {
    exists a, b, c :: s == a + x + b + y + c
  }

  lemma InOrderIntro<T(!new)>(s: seq<T>, a: seq<T>, x: seq<T>, b: seq<T>, y: seq<T>, c: seq<T>)
    requires s == a + x + b + y + c
    ensures InOrder(s, x, y)
  {
  }

  lemma Regroup<T>(a: seq<T>, x: seq<T>, b: seq<T>, y: seq<T>, c: seq<T>, post: seq<T>)
    ensures a + x + (b + y + c + post) == a + x + b + y + (c + post)
  {
  }

  /** The outputs of two elements appear in the same order as the elements. */
  lemma InOrderSplit<A, B(!new)>(f: A -> seq<B>, pre: seq<B>, s: seq<A>, post: seq<B>, i: nat, j: nat)
    requires i < j < |s|
    ensures InOrder(pre + FlatMap(f, s) + post, f(s[i]), f(s[j]))
  {
    var k, rest := j - i - 1, s[i + 1..];
    FramedSplit(f, pre, s, post, i);
    FlatMapSplit(f, rest, k);
    assert rest[k] == s[j];
    var a, x := pre + FlatMap(f, s[..i]), f(s[i]);
    var b, y, c := FlatMap(f, rest[..k]), f(s[j]), FlatMap(f, rest[k + 1..]);
    Regroup(a, x, b, y, c, post);
    InOrderIntro(pre + FlatMap(f, s) + post, a, x, b, y, c + post);
  }
}
