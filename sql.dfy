/** The few relational operators the handlers' queries are built from, over
    tables held as sequences of rows: `where`, `order by … desc`, `limit`
    and `count(*)`. */
module Sql {

  /** `where p`: the rows satisfying `p`, in table order. */
  function Where<T(!new)>(s: seq<T>, p: T -> bool): (r: seq<T>)
    ensures |r| <= |s|
    ensures forall x :: x in r <==> x in s && p(x)
    ensures (forall x :: x in s ==> p(x)) ==> r == s
  {
    if s == [] then []
    else if p(s[0]) then [s[0]] + Where(s[1..], p)
    else Where(s[1..], p)
  }

  /** `where` keeps each qualifying row as often as the table holds it, and drops
      every other row. */
  lemma {:induction false} WhereMultiplicity<T(!new)>(s: seq<T>, p: T -> bool)
    ensures forall x :: multiset(Where(s, p))[x] == if p(x) then multiset(s)[x] else 0
  {
    if s != [] {
      assert s == [s[0]] + s[1..];
      WhereMultiplicity(s[1..], p);
    }
  }

  /** `count(*) … where p`. */
  function Count<T(!new)>(s: seq<T>, p: T -> bool): (n: nat)
    ensures n <= |s|
    ensures n == 0 <==> forall x :: x in s ==> !p(x)
  {
    var w := Where(s, p);
    assert w != [] ==> w[0] in w;
    |w|
  }

  lemma {:induction false} WhereAppend<T(!new)>(s: seq<T>, t: seq<T>, p: T -> bool)
    ensures Where(s + t, p) == Where(s, p) + Where(t, p)
  {
    if s == [] {
      assert s + t == t;
    } else {
      assert (s + t)[0] == s[0];
      assert (s + t)[1..] == s[1..] + t;
      WhereAppend(s[1..], t, p);
    }
  }

  /** Every row is counted by exactly one of `p` and its negation. */
  lemma {:induction false} CountComplement<T(!new)>(s: seq<T>, p: T -> bool, q: T -> bool)
    requires forall x :: q(x) == !p(x)
    ensures Count(s, p) + Count(s, q) == |s|
  {
    if s != [] {
      CountComplement(s[1..], p, q);
    }
  }

  /** Rows satisfying `p` split into those satisfying `a` and those satisfying `b`
      when `p` is the disjoint union of the two. */
  lemma {:induction false} CountSplit<T(!new)>(s: seq<T>, p: T -> bool, a: T -> bool, b: T -> bool)
    requires forall x :: p(x) == (a(x) || b(x)) && !(a(x) && b(x))
    ensures Count(s, p) == Count(s, a) + Count(s, b)
  {
    if s != [] {
      CountSplit(s[1..], p, a, b);
    }
  }

  /** Count is monotone in the predicate. */
  lemma {:induction false} CountMonotone<T(!new)>(s: seq<T>, p: T -> bool, q: T -> bool)
    requires forall x :: p(x) ==> q(x)
    ensures Count(s, p) <= Count(s, q)
  {
    if s != [] {
      CountMonotone(s[1..], p, q);
    }
  }

  predicate SortedDesc<T(!new)>(s: seq<T>, key: T -> int) {
    forall i, j :: 0 <= i < j < |s| ==> key(s[i]) >= key(s[j])
  }

  function InsertDesc<T(!new)>(x: T, s: seq<T>, key: T -> int): (r: seq<T>)
    requires SortedDesc(s, key)
    ensures SortedDesc(r, key)
    ensures multiset(r) == multiset(s) + multiset{x}
    ensures |r| == |s| + 1
    ensures r[0] == x || (s != [] && r[0] == s[0])
  {
    if s == [] || key(x) >= key(s[0]) then [x] + s
    else
      var t := InsertDesc(x, s[1..], key);
      assert s == [s[0]] + s[1..];
      assert key(t[0]) <= key(s[0]);
      [s[0]] + t
  }

  /** `order by key desc`: a permutation of the rows, sorted newest (largest) first.
      Rows with equal keys keep their relative table order here; SQL leaves that
      order unspecified. */
  function OrderByDesc<T(!new)>(s: seq<T>, key: T -> int): (r: seq<T>)
    ensures SortedDesc(r, key)
    ensures multiset(r) == multiset(s)
    ensures |r| == |s|
    ensures forall x :: x in r <==> x in s
  {
    if s == [] then []
    else
      var t := OrderByDesc(s[1..], key);
      var r := InsertDesc(s[0], t, key);
      assert s == [s[0]] + s[1..];
      assert multiset(r) == multiset(s);
      assert forall x :: x in r <==> x in multiset(r);
      r
  }

  /** `limit n`: the first `n` rows (all of them when there are fewer). */
  function Limit<T>(s: seq<T>, n: int): (r: seq<T>)
    ensures |r| == if n <= 0 then 0 else if n < |s| then n else |s|
    ensures r == s[..|r|]
  {
    if n <= 0 then [] else if n < |s| then s[..n] else s
  }

  /** `where p order by key desc`: exactly the rows satisfying `p`, each as often as
      in the table, largest key first. */
  function Select<T(!new)>(s: seq<T>, p: T -> bool, key: T -> int): (r: seq<T>)
    ensures SortedDesc(r, key)
    ensures forall x :: x in r <==> x in s && p(x)
    ensures multiset(r) == multiset(Where(s, p))
    ensures |r| == Count(s, p)
  {
    OrderByDesc(Where(s, p), key)
  }

  /** `where p order by key desc limit n`: only rows satisfying `p`, largest key
      first, as many as the limit allows; a result shorter than the limit misses
      no qualifying row. */
  function Top<T(!new)>(s: seq<T>, p: T -> bool, key: T -> int, n: int): (r: seq<T>)
    ensures forall x :: x in r ==> x in s && p(x)
    ensures SortedDesc(r, key)
    ensures |r| == if n <= 0 then 0 else if n < Count(s, p) then n else Count(s, p)
    ensures |r| < n ==> forall x :: x in s && p(x) ==> x in r
    ensures r == Select(s, p, key)[..|r|]
  {
    var o := Select(s, p, key);
    var r := Limit(o, n);
    assert forall x :: x in r ==> x in o;
    assert |r| < n ==> r == o;
    r
  }

  /** The rows `limit` keeps are the newest: every qualifying row left out has a key no
      larger than any row kept. */
  lemma TopIsNewest<T(!new)>(s: seq<T>, p: T -> bool, key: T -> int, n: int)
    ensures var r := Top(s, p, key, n);
            forall x, y :: x in r && y in s && p(y) && y !in r ==> key(y) <= key(x)
  {
    var o := Select(s, p, key);
    PrefixIsLargest(o, |Top(s, p, key, n)|, key);
  }

  /** In a list sorted by descending key, a row outside the first `k` has a key no
      larger than any row among them. */
  lemma PrefixIsLargest<T(!new)>(o: seq<T>, k: nat, key: T -> int)
    requires SortedDesc(o, key) && k <= |o|
    ensures forall x, y :: x in o[..k] && y in o && y !in o[..k] ==> key(y) <= key(x)
  {
    forall x, y | x in o[..k] && y in o && y !in o[..k]
      ensures key(y) <= key(x)
    {
      var i :| 0 <= i < k && o[..k][i] == x;
      var j :| 0 <= j < |o| && o[j] == y;
      assert forall m :: 0 <= m < k ==> o[m] == o[..k][m] && o[m] != y;
      assert k <= j;
      assert o[i] == x;
    }
  }
}
