/** Small shared definitions: options, counting along sequences, slot numbers. */
module Common {

  datatype Option<+T> = None | Some(value: T)

  function DropAt<T>(s: seq<T>, k: nat): (r: seq<T>)
    requires k < |s|
    ensures |r| == |s| - 1
    ensures forall i :: 0 <= i < k ==> r[i] == s[i]
    ensures forall i :: k <= i < |r| ==> r[i] == s[i + 1]
  {
    s[..k] + s[k + 1..]
  }

  /** The sum of `g(e, k)` over the elements `e` of `f`. */
  ghost function Sum<S, K>(f: seq<S>, g: (S, K) -> nat, k: K): nat {
    if f == [] then 0 else Sum(f[..|f| - 1], g, k) + g(f[|f| - 1], k)
  }

  ghost function Same<T>(a: T, b: T): nat { if a == b then 1 else 0 }

  /** How often `x` occurs in `s`. */
  ghost function Count<T>(s: seq<T>, x: T): nat { Sum(s, Same, x) }

  lemma SumSnoc<S, K>(f: seq<S>, e: S, g: (S, K) -> nat, k: K)
    ensures Sum(f + [e], g, k) == Sum(f, g, k) + g(e, k)
  {
    assert (f + [e])[..|f|] == f;
  }

  lemma CountSmall<T>(e: T, x: T)
    ensures Count([], x) == 0
    ensures Count([e], x) == Same(e, x)
  {
    SumSnoc([], e, Same, x);
    assert [] + [e] == [e];
  }

  lemma CountSnoc<T>(s: seq<T>, e: T, x: T)
    ensures Count(s + [e], x) == Count(s, x) + Same(e, x)
  {
    SumSnoc(s, e, Same, x);
  }

  lemma {:induction false} SumConcat<S, K>(a: seq<S>, b: seq<S>, g: (S, K) -> nat, k: K)
    ensures Sum(a + b, g, k) == Sum(a, g, k) + Sum(b, g, k)
  {
    if b == [] {
      assert a + b == a;
    } else {
      var n := |b| - 1;
      SumConcat(a, b[..n], g, k);
      assert a + b == (a + b[..n]) + [b[n]];
      SumSnoc(a + b[..n], b[n], g, k);
    }
  }

  lemma SumHead<S, K>(f: seq<S>, g: (S, K) -> nat, k: K)
    requires f != []
    ensures Sum(f, g, k) == g(f[0], k) + Sum(f[1..], g, k)
  {
    assert f == [f[0]] + f[1..];
    SumConcat([f[0]], f[1..], g, k);
    SumSnoc([], f[0], g, k);
    assert [] + [f[0]] == [f[0]];
  }

  lemma SumDrop<S, K>(f: seq<S>, j: nat, g: (S, K) -> nat, k: K)
    requires j < |f|
    ensures Sum(f, g, k) == Sum(DropAt(f, j), g, k) + g(f[j], k)
  {
    assert f == f[..j] + f[j..];
    SumConcat(f[..j], f[j..], g, k);
    SumHead(f[j..], g, k);
    SumConcat(f[..j], f[j + 1..], g, k);
    assert f[j..][1..] == f[j + 1..];
  }

  lemma SumUpdate<S, K>(f: seq<S>, j: nat, e: S, g: (S, K) -> nat, k: K)
    requires j < |f|
    ensures Sum(f[j := e], g, k) + g(f[j], k) == Sum(f, g, k) + g(e, k)
  {
    SumDrop(f, j, g, k);
    SumDrop(f[j := e], j, g, k);
    assert DropAt(f[j := e], j) == DropAt(f, j);
  }

  /** An element occurs exactly when it is counted. */
  lemma {:induction false} CountMember<T>(s: seq<T>, x: T)
    ensures x in s <==> Count(s, x) > 0
  {
    if s != [] {
      var n := |s| - 1;
      CountMember(s[..n], x);
      assert s == s[..n] + [s[n]];
    }
  }

  /** No value occurs twice. */
  ghost predicate Distinct<T>(s: seq<T>) {
    forall i, j :: 0 <= i < j < |s| ==> s[i] != s[j]
  }

  lemma DistinctCount<T>(s: seq<T>, x: T)
    requires Distinct(s)
    ensures Count(s, x) == if x in s then 1 else 0
  {
    CountMember(s, x);
    if x in s {
      var i :| 0 <= i < |s| && s[i] == x;
      SumDrop(s, i, Same, x);
      CountMember(DropAt(s, i), x);
    }
  }

  /** The slot numbers 0 .. n-1, in order. */
  function Upto(n: nat): (s: seq<nat>)
    ensures |s| == n && forall i :: 0 <= i < n ==> s[i] == i
  {
    if n == 0 then [] else Upto(n - 1) + [n - 1]
  }

  lemma CountUpto(n: nat, k: nat)
    ensures Count(Upto(n), k) == if k < n then 1 else 0
  {
    DistinctCount(Upto(n), k);
    if k < n {
      assert Upto(n)[k] == k;
    }
  }
}
