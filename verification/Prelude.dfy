/** Bytes, optional values and the few sequence helpers every other module uses. */
module Prelude {

  type byte = b: int | 0 <= b < 0x100

  type Bytes = seq<byte>

  /** Text is represented by its UTF-8 bytes, which sort in the same order as its characters. */
  type Text = Bytes

  datatype Option<+T> = None | Some(value: T)

  /** The outcome of an operation that the source lets raise. */
  datatype Result<+T, +E> = Ok(value: T) | Err(error: E) {
    predicate IsFailure() {
      Err?
    }

    function PropagateFailure<U>(): Result<U, E>
      requires Err?
    {
      Err(error)
    }

    function Extract(): T
      requires Ok?
    {
      value
    }
  }

  /** The bytes of an ASCII literal. */
  function Ascii(s: string): Text {
    seq(|s|, i requires 0 <= i < |s| => s[i] as int % 0x100)
  }

  function Map<A, B>(f: A -> B, xs: seq<A>): seq<B> {
    seq(|xs|, i requires 0 <= i < |xs| => f(xs[i]))
  }

  lemma MapLast<A, B>(f: A -> B, xs: seq<A>)
    requires xs != []
    ensures Map(f, xs) == Map(f, xs[..|xs| - 1]) + [f(xs[|xs| - 1])]
  {
  }

  /** The elements of `xs` that satisfy `keep`, in order. */
  function Filter<A>(keep: A -> bool, xs: seq<A>): seq<A> {
    if xs == [] then []
    else
      var prefix := Filter(keep, xs[..|xs| - 1]);
      if keep(xs[|xs| - 1]) then prefix + [xs[|xs| - 1]] else prefix
  }

  lemma {:induction false} FilterMembers<A>(keep: A -> bool, xs: seq<A>, x: A)
    ensures x in Filter(keep, xs) <==> x in xs && keep(x)
  {
    if xs != [] {
      FilterMembers(keep, xs[..|xs| - 1], x);
      assert xs == xs[..|xs| - 1] + [xs[|xs| - 1]];
    }
  }

  lemma {:induction false} FilterAll<A>(keep: A -> bool, xs: seq<A>)
    requires forall x | x in xs :: keep(x)
    ensures Filter(keep, xs) == xs
  {
    if xs != [] {
      assert xs == xs[..|xs| - 1] + [xs[|xs| - 1]];
      FilterAll(keep, xs[..|xs| - 1]);
    }
  }

  lemma {:induction false} FilterConcat<A>(keep: A -> bool, xs: seq<A>, ys: seq<A>)
    ensures Filter(keep, xs + ys) == Filter(keep, xs) + Filter(keep, ys)
  {
    if ys == [] {
      assert xs + ys == xs;
    } else {
      var zs := xs + ys;
      assert zs[..|zs| - 1] == xs + ys[..|ys| - 1];
      FilterConcat(keep, xs, ys[..|ys| - 1]);
    }
  }

  /** Each element once, in the order of first occurrence. */
  function Once<A(==, !new)>(xs: seq<A>): (once: seq<A>)
    ensures forall x :: x in once <==> x in xs
    ensures forall i, j | 0 <= i < j < |once| :: once[i] != once[j]
  {
    if xs == [] then []
    else
      var before, last := Once(xs[..|xs| - 1]), xs[|xs| - 1];
      assert xs == xs[..|xs| - 1] + [last];
      if last in before then before else before + [last]
  }

  /** A nested comprehension: the lists `f` yields for each element, joined. */
  function FlatMap<A, B>(f: A -> seq<B>, xs: seq<A>): seq<B> {
    if xs == [] then [] else FlatMap(f, xs[..|xs| - 1]) + f(xs[|xs| - 1])
  }

  lemma {:induction false} FlatMapMembers<A, B>(f: A -> seq<B>, xs: seq<A>, y: B)
    ensures y in FlatMap(f, xs) <==> exists x :: x in xs && y in f(x)
  {
    if xs != [] {
      FlatMapMembers(f, xs[..|xs| - 1], y);
      assert xs == xs[..|xs| - 1] + [xs[|xs| - 1]];
    }
  }

  lemma {:induction false} FlatMapConcat<A, B>(f: A -> seq<B>, xs: seq<A>, ys: seq<A>)
    ensures FlatMap(f, xs + ys) == FlatMap(f, xs) + FlatMap(f, ys)
  {
    if ys == [] {
      assert xs + ys == xs;
    } else {
      var zs := xs + ys;
      assert zs[..|zs| - 1] == xs + ys[..|ys| - 1];
      FlatMapConcat(f, xs, ys[..|ys| - 1]);
    }
  }

  lemma FlatMapAround<A, B>(f: A -> seq<B>, left: seq<A>, x: A, right: seq<A>)
    ensures FlatMap(f, left + [x] + right) == FlatMap(f, left) + f(x) + FlatMap(f, right)
  {
    FlatMapConcat(f, left + [x], right);
    assert (left + [x])[..|left|] == left;
  }

  lemma FlatMapRemoves<A, B>(f: A -> seq<B>, left: seq<A>, x: A, right: seq<A>)
    ensures multiset(FlatMap(f, left + [x] + right)) == multiset(FlatMap(f, left + right)) + multiset(f(x))
  {
    FlatMapAround(f, left, x, right);
    FlatMapConcat(f, left, right);
    MultisetOfThree(FlatMap(f, left), f(x), FlatMap(f, right));
  }

  lemma MultisetOfThree<A>(a: seq<A>, b: seq<A>, c: seq<A>)
    ensures multiset(a + b + c) == multiset(a + c) + multiset(b)
  {
  }

  lemma Around<A>(xs: seq<A>, x: A) returns (left: seq<A>, right: seq<A>)
    requires x in xs
    ensures xs == left + [x] + right
  {
    var i :| 0 <= i < |xs| && xs[i] == x;
    left, right := xs[..i], xs[i + 1..];
  }

  lemma RemoveSame<A>(rest: seq<A>, left: seq<A>, x: A, right: seq<A>)
    requires multiset([x] + rest) == multiset(left + [x] + right)
    ensures multiset(rest) == multiset(left + right)
  {
    MultisetOfThree(left, [x], right);
    assert multiset([x] + rest) == multiset([x]) + multiset(rest);
    assert multiset(rest) == multiset([x] + rest) - multiset([x]);
    assert multiset(left + right) == multiset(left + [x] + right) - multiset([x]);
  }

  lemma FlatMapCons<A, B>(f: A -> seq<B>, x: A, rest: seq<A>)
    ensures FlatMap(f, [x] + rest) == f(x) + FlatMap(f, rest)
  {
    FlatMapConcat(f, [x], rest);
    var one := [x];
    assert one[..0] == [];
    assert FlatMap(f, one) == [] + f(x);
  }

  lemma PermuteStep<A, B>(f: A -> seq<B>, x: A, rest: seq<A>, left: seq<A>, right: seq<A>)
    requires multiset(FlatMap(f, rest)) == multiset(FlatMap(f, left + right))
    ensures multiset(FlatMap(f, [x] + rest)) == multiset(FlatMap(f, left + [x] + right))
  {
    FlatMapRemoves(f, left, x, right);
    FlatMapCons(f, x, rest);
  }

  /** Permuting the input permutes the output. */
  lemma {:induction false} FlatMapPermutes<A, B>(f: A -> seq<B>, xs: seq<A>, ys: seq<A>)
    requires multiset(xs) == multiset(ys)
    ensures multiset(FlatMap(f, xs)) == multiset(FlatMap(f, ys))
  {
    if xs == [] {
      assert |multiset(ys)| == 0;
    } else {
      var x, rest := xs[0], xs[1..];
      assert x in multiset(ys);
      var left, right := Around(ys, x);
      assert xs == [x] + rest;
      RemoveSame(rest, left, x, right);
      FlatMapPermutes(f, rest, left + right);
      PermuteStep(f, x, rest, left, right);
    }
  }

  lemma HeadIsMember<T>(s: seq<T>)
    ensures s == [] || s[0] in s
  {
  }

  lemma OneMore(n: int, k: int)
    ensures (n + 1) * k == n * k + k
    ensures k * (n + 1) == k * n + k
  {
  }

  lemma ProductMonotone(k: nat, a: int, b: int)
    requires a <= b
    ensures k * a <= k * b
  {
    assert k * (b - a) >= 0;
    assert k * b == k * a + k * (b - a);
  }

  /** Microseconds in a second; all times are integer microseconds since the Unix epoch. */
  const SECOND := 1_000_000
}
