/** Types and sums shared by the ledger modules. */
module Basics {

  datatype Option<+T> = None | Some(value: T)

  datatype Result<+T, +E> = Ok(value: T) | Err(error: E)

  /** Amounts are exact: a whole number of the smallest unit in use. */
  type Money = int

  function Min(x: int, y: int): int { if x < y then x else y }

  function Max(x: int, y: int): int { if x < y then y else x }

  predicate IsDigit(c: char) { '0' <= c <= '9' }

  predicate AllDigits(s: string) { forall i :: 0 <= i < |s| ==> IsDigit(s[i]) }

  /** The sum of f over the elements of s. */
  function Sum<T>(s: seq<T>, f: T -> int): int {
    if s == [] then 0 else f(s[0]) + Sum(s[1..], f)
  }

  lemma {:induction false} SumConcat<T>(s: seq<T>, t: seq<T>, f: T -> int)
    ensures Sum(s + t, f) == Sum(s, f) + Sum(t, f)
  {
    if s == [] {
      assert s + t == t;
    } else {
      assert (s + t)[0] == s[0] && (s + t)[1..] == s[1..] + t;
      SumConcat(s[1..], t, f);
    }
  }

  lemma SumAppend<T>(s: seq<T>, x: T, f: T -> int)
    ensures Sum(s + [x], f) == Sum(s, f) + f(x)
  {
    SumConcat(s, [x], f);
  }

  lemma SumOfOne<T>(x: T, f: T -> int)
    ensures Sum([x], f) == f(x)
  {
    var only := [x];
    assert only[1..] == [] && Sum(only, f) == f(x) + Sum([], f);
  }

  lemma SumSplit<T>(s: seq<T>, k: nat, f: T -> int)
    requires k < |s|
    ensures Sum(s, f) == Sum(s[..k], f) + f(s[k]) + Sum(s[k + 1..], f)
  {
    var front, one, rest := s[..k], [s[k]], s[k + 1..];
    assert front + (one + rest) == s;
    assert one[1..] == [] && Sum(one, f) == f(s[k]) + Sum([], f);
    SumConcat(front, one + rest, f);
    SumConcat(one, rest, f);
  }

  lemma SumUpdate<T>(s: seq<T>, k: nat, x: T, f: T -> int)
    requires k < |s|
    ensures Sum(s[k := x], f) == Sum(s, f) - f(s[k]) + f(x)
  {
    SumSplit(s, k, f);
    SumSplit(s[k := x], k, f);
    assert s[k := x][..k] == s[..k] && s[k := x][k + 1..] == s[k + 1..];
  }

  lemma UpdateMembers<T>(s: seq<T>, k: nat, x: T)
    requires k < |s|
    ensures forall u :: u in s[k := x] ==> u == x || u in s
  {
    forall u | u in s[k := x]
      ensures u == x || u in s
    {
      var i :| 0 <= i < |s| && s[k := x][i] == u;
      if i != k {
        assert s[i] == u;
      }
    }
  }

  lemma SumRemove<T>(s: seq<T>, k: nat, f: T -> int)
    requires k < |s|
    ensures Sum(s[..k] + s[k + 1..], f) == Sum(s, f) - f(s[k])
  {
    SumSplit(s, k, f);
    SumConcat(s[..k], s[k + 1..], f);
  }

  lemma {:induction false} SumNonNegative<T>(s: seq<T>, f: T -> int)
    requires forall x :: x in s ==> f(x) >= 0
    ensures Sum(s, f) >= 0
  {
    if s != [] {
      SumNonNegative(s[1..], f);
    }
  }

  /** One element is at most the sum when no element is negative. */
  lemma SumAtLeast<T>(s: seq<T>, k: nat, f: T -> int)
    requires k < |s|
    requires forall x :: x in s ==> f(x) >= 0
    ensures Sum(s, f) >= f(s[k])
  {
    SumSplit(s, k, f);
    SumNonNegative(s[..k], f);
    SumNonNegative(s[k + 1..], f);
  }

  /** How often an element is in a sequence, first element and rest. */
  lemma FrontCounts<T>(s: seq<T>, x: T)
    requires s != []
    ensures multiset(s)[x] == (if s[0] == x then 1 else 0) + multiset(s[1..])[x]
  {
    assert s == [s[0]] + s[1..];
  }

  lemma RemoveCounts<T>(s: seq<T>, k: nat, x: T)
    requires k < |s|
    ensures multiset(s[..k] + s[k + 1..])[x] + (if s[k] == x then 1 else 0) == multiset(s)[x]
  {
    assert s == s[..k] + [s[k]] + s[k + 1..];
  }

  lemma MultipleIsFar(k: int, x: int)
    requires k > 0
    ensures (x >= 1 ==> k * x >= k) && (x <= -1 ==> k * x <= -k)
  {
  }

  lemma QuotientAndRest(n: int, k: int, q: int, r: int)
    requires n == k * q + r && 0 <= r < k
    ensures n / k == q && n % k == r
  {
    var over := q - n / k;
    assert k * over == n % k - r;
    MultipleIsFar(k, over);
  }
}
