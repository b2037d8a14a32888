/** Recency lists: distinct keys, the least recently used first. */
module Recency {
  predicate Distinct(s: seq<string>) { forall i, j | 0 <= i < j < |s| :: s[i] != s[j] }

  function Without(s: seq<string>, k: string): seq<string> {
    if s == [] then []
    else Without(s[..|s| - 1], k) + (if s[|s| - 1] == k then [] else [s[|s| - 1]])
  }

  function Touched(s: seq<string>, k: string): seq<string> { Without(s, k) + [k] }

  /** The last `n` elements, or all of them. */
  function LastN(s: seq<string>, n: nat): seq<string> { if |s| <= n then s else s[|s| - n..] }

  lemma {:induction false} WithoutMembers(s: seq<string>, k: string)
    ensures forall x :: x in Without(s, k) <==> x in s && x != k
    ensures k !in s ==> Without(s, k) == s
    ensures |Without(s, k)| <= |s|
  {
    if s != [] {
      var init, last := s[..|s| - 1], s[|s| - 1];
      WithoutMembers(init, k);
      assert s == init + [last];
    }
  }

  lemma DistinctInit(s: seq<string>)
    requires Distinct(s) && s != []
    ensures Distinct(s[..|s| - 1]) && s[|s| - 1] !in s[..|s| - 1]
    ensures forall x :: x in s <==> x in s[..|s| - 1] || x == s[|s| - 1]
  {
    assert s == s[..|s| - 1] + [s[|s| - 1]];
  }

  lemma DistinctSnoc(s: seq<string>, x: string)
    requires Distinct(s) && x !in s
    ensures Distinct(s + [x])
  {
  }

  lemma {:induction false} WithoutDistinct(s: seq<string>, k: string)
    requires Distinct(s)
    ensures Distinct(Without(s, k)) && |Without(s, k)| == if k in s then |s| - 1 else |s|
  {
    if s != [] {
      var init, last := s[..|s| - 1], s[|s| - 1];
      DistinctInit(s);
      WithoutDistinct(init, k);
      WithoutMembers(init, k);
      if last != k { DistinctSnoc(Without(init, k), last); }
    }
  }

  lemma {:induction false} WithoutConcat(a: seq<string>, b: seq<string>, k: string)
    ensures Without(a + b, k) == Without(a, k) + Without(b, k)
  {
    if b == [] {
      assert a + b == a;
    } else {
      WithoutConcat(a, b[..|b| - 1], k);
      assert (a + b)[..|a + b| - 1] == a + b[..|b| - 1];
    }
  }

  lemma TouchedKeeps(s: seq<string>, k: string)
    requires Distinct(s)
    ensures Distinct(Touched(s, k)) && |Touched(s, k)| == if k in s then |s| else |s| + 1
    ensures forall x :: x in Touched(s, k) <==> x in s || x == k
  {
    WithoutMembers(s, k);
    WithoutDistinct(s, k);
  }

  lemma LastNKeeps(s: seq<string>, n: nat)
    requires Distinct(s)
    ensures Distinct(LastN(s, n)) && |LastN(s, n)| == if |s| <= n then |s| else n
    ensures forall x | x in LastN(s, n) :: x in s
  {
  }

  lemma LastNConcat(a: seq<string>, b: seq<string>, n: nat)
    requires |b| >= n
    ensures LastN(a + b, n) == LastN(b, n)
  {
  }

  lemma HeadApart(s: seq<string>)
    requires Distinct(s) && s != []
    ensures Distinct(s[1..]) && forall x :: x in s[1..] <==> x in s && x != s[0]
  {
    assert s == [s[0]] + s[1..];
  }

  lemma LastNTail(s: seq<string>, n: nat)
    requires n < |s|
    ensures LastN(s[1..], n) == LastN(s, n)
  {
  }

  lemma LastNSnoc(s: seq<string>, k: string, n: nat)
    requires n > 0
    ensures LastN(LastN(s, n), n - 1) + [k] == LastN(s + [k], n)
  {
  }

  /** Truncating first changes nothing: a bounded list is always the end of the unbounded one. */
  lemma TouchThenTruncate(s: seq<string>, k: string, n: nat)
    requires Distinct(s) && n > 0
    ensures LastN(Touched(LastN(s, n), k), n) == LastN(Touched(s, k), n)
  {
    if |s| > n {
      var a, b := s[..|s| - n], LastN(s, n);
      assert s == a + b;
      WithoutConcat(a, b, k);
      TouchedKeeps(b, k);
      assert Touched(s, k) == Without(a, k) + Touched(b, k);
      LastNConcat(Without(a, k), Touched(b, k), n);
    }
  }

  /** All keys ever used, each once, ordered by last use. */
  function ByLastUse(uses: seq<string>): seq<string> {
    if uses == [] then [] else Touched(ByLastUse(uses[..|uses| - 1]), uses[|uses| - 1])
  }

  lemma SnocMembers(s: seq<string>, k: string)
    ensures forall x :: x in s + [k] <==> x in s || x == k
  {
  }

  lemma {:induction false} ByLastUseDistinct(uses: seq<string>)
    ensures Distinct(ByLastUse(uses)) && forall x :: x in ByLastUse(uses) <==> x in uses
  {
    if uses != [] {
      var init, k := uses[..|uses| - 1], uses[|uses| - 1];
      ByLastUseDistinct(init);
      TouchedKeeps(ByLastUse(init), k);
      SnocMembers(init, k);
      assert uses == init + [k];
    }
  }

  /** `x` was last used before `y`. */
  ghost predicate LastUsedBefore(uses: seq<string>, x: string, y: string) {
    exists i | 0 <= i < |uses| :: uses[i] == y && (forall j | i <= j < |uses| :: uses[j] != x) && x in uses[..i]
  }

  /** The list really is ordered by last use. */
  lemma {:induction false} ByLastUseOrder(uses: seq<string>, i: nat, j: nat)
    requires i < j < |ByLastUse(uses)|
    ensures LastUsedBefore(uses, ByLastUse(uses)[i], ByLastUse(uses)[j])
  {
    var init, k := uses[..|uses| - 1], uses[|uses| - 1];
    var before := ByLastUse(init);
    assert uses == init + [k];
    ByLastUseDistinct(init);
    ByLastUseDistinct(uses);
    var p := WithoutAt(before, k, i);
    WithoutMembers(before, k);
    assert Without(before, k)[i] in Without(before, k);
    if j < |Without(before, k)| {
      var p', q := WithoutOrder(before, k, i, j);
      ByLastUseOrder(init, p', q);
      UsedBeforeGrows(init, k, before[p'], before[q]);
    } else {
      UsedBeforeLast(init, before[p], k);
    }
  }

  lemma UsedBeforeGrows(uses: seq<string>, k: string, x: string, y: string)
    requires LastUsedBefore(uses, x, y) && x != k
    ensures LastUsedBefore(uses + [k], x, y)
  {
    var i :| 0 <= i < |uses| && uses[i] == y && (forall j | i <= j < |uses| :: uses[j] != x) && x in uses[..i];
    assert (uses + [k])[i] == y && (uses + [k])[..i] == uses[..i];
  }

  lemma UsedBeforeLast(uses: seq<string>, x: string, k: string)
    requires x in uses && x != k
    ensures LastUsedBefore(uses + [k], x, k)
  {
    assert (uses + [k])[|uses|] == k && (uses + [k])[..|uses|] == uses;
  }

  lemma {:induction false} WithoutOrder(s: seq<string>, k: string, i: nat, j: nat) returns (p: nat, q: nat)
    requires i < j < |Without(s, k)|
    ensures p < q < |s| && s[p] == Without(s, k)[i] && s[q] == Without(s, k)[j]
  {
    var init := s[..|s| - 1];
    if j < |Without(init, k)| {
      p, q := WithoutOrder(init, k, i, j);
    } else {
      q := |s| - 1;
      p := WithoutAt(init, k, i);
    }
  }

  lemma {:induction false} WithoutAt(s: seq<string>, k: string, i: nat) returns (p: nat)
    requires i < |Without(s, k)|
    ensures p < |s| && s[p] == Without(s, k)[i]
  {
    var init := s[..|s| - 1];
    if i < |Without(init, k)| { p := WithoutAt(init, k, i); } else { p := |s| - 1; }
  }
}
