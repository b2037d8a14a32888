/** Concatenation laws for sequences that the message transformations share. */
module Sequences {
  function Flat<A, B>(xs: seq<A>, f: A -> seq<B>): seq<B> {
    if xs == [] then [] else Flat(xs[..|xs| - 1], f) + f(xs[|xs| - 1])
  }

  lemma Assoc<T>(a: seq<T>, b: seq<T>, c: seq<T>)
    ensures (a + b) + c == a + (b + c)
  {
  }

  lemma FlatSnoc<A, B>(xs: seq<A>, x: A, f: A -> seq<B>)
    ensures Flat(xs + [x], f) == Flat(xs, f) + f(x)
  {
    assert (xs + [x])[..|xs + [x]| - 1] == xs;
  }

  lemma FlatOne<A, B>(x: A, f: A -> seq<B>)
    ensures Flat([x], f) == f(x)
  {
    FlatSnoc([], x, f);
    assert [] + [x] == [x];
  }

  lemma InitConcat<T>(a: seq<T>, b: seq<T>)
    requires b != []
    ensures (a + b)[..|a + b| - 1] == a + b[..|b| - 1] && (a + b)[|a + b| - 1] == b[|b| - 1]
  {
  }

  lemma {:induction false} FlatConcat<A, B>(a: seq<A>, b: seq<A>, f: A -> seq<B>)
    ensures Flat(a + b, f) == Flat(a, f) + Flat(b, f)
  {
    if b == [] {
      assert a + b == a;
    } else {
      var init, x := b[..|b| - 1], b[|b| - 1];
      FlatConcat(a, init, f);
      InitConcat(a, b);
      Assoc(Flat(a, f), Flat(init, f), f(x));
    }
  }

  function Itself<T>(): seq<T> -> seq<T> { xs => xs }

  function Each<A, B>(f: A -> seq<B>): seq<A> -> seq<B> { xs => Flat(xs, f) }

  /** Flattening first and then mapping is mapping each part and then flattening. */
  lemma {:induction false} FlatFlat<A, B>(xss: seq<seq<A>>, f: A -> seq<B>)
    ensures Flat(Flat(xss, Itself()), f) == Flat(xss, Each(f))
  {
    if xss != [] {
      var init, last := xss[..|xss| - 1], xss[|xss| - 1];
      FlatFlat(init, f);
      FlatConcat(Flat(init, Itself()), last, f);
    }
  }

  lemma Middle<T>(xs: seq<T>, t: nat)
    requires t < |xs|
    ensures (xs[..t] + [xs[t]]) + xs[t + 1..] == xs
  {
  }

  lemma FlatMiddle<A, B>(xs: seq<A>, t: nat, f: A -> seq<B>)
    requires t < |xs|
    ensures Flat(xs, f) == Flat(xs[..t], f) + f(xs[t]) + Flat(xs[t + 1..], f)
  {
    FlatConcat(xs[..t] + [xs[t]], xs[t + 1..], f);
    FlatSnoc(xs[..t], xs[t], f);
    Middle(xs, t);
  }

  lemma FlatUpdate<A, B>(xs: seq<A>, t: nat, x: A, f: A -> seq<B>)
    requires t < |xs|
    ensures f(x) == f(xs[t]) ==> Flat(xs[t := x], f) == Flat(xs, f)
    ensures |f(x)| != |f(xs[t])| ==> Flat(xs[t := x], f) != Flat(xs, f)
  {
    var ys := xs[t := x];
    FlatMiddle(xs, t, f);
    FlatMiddle(ys, t, f);
    assert ys[..t] == xs[..t] && ys[t + 1..] == xs[t + 1..];
  }

  lemma Snocs<T>(xs: seq<T>)
    requires xs != []
    ensures xs[..|xs| - 1] + [xs[|xs| - 1]] == xs
  {
  }
}
