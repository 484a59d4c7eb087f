/**
 * The list idioms both dashboards use: comprehension filters
 * `[x for x in s if p(x)]`, first-match search `next((... for x in s if p(x)), None)`
 * and `list.remove(x)`.
 */
module Lists {
  import opened Wrappers

  /** `[x for x in s if p(x)]`: the elements of `s` that satisfy `p`, in their original order. */
  function Filter<T>(s: seq<T>, p: T -> bool): (r: seq<T>)
    ensures |r| <= |s|
    ensures forall i :: 0 <= i < |r| ==> p(r[i]) && r[i] in s
    ensures forall i :: 0 <= i < |s| && p(s[i]) ==> s[i] in r
    ensures multiset(r) <= multiset(s)
  {
    if s == [] then []
    else
      assert s == [s[0]] + s[1..];
      (if p(s[0]) then [s[0]] else []) + Filter(s[1..], p)
  }

  /** Filtering distributes over concatenation, so the kept elements stay in their order. */
  lemma {:induction false} FilterConcat<T>(a: seq<T>, b: seq<T>, p: T -> bool)
    ensures Filter(a + b, p) == Filter(a, p) + Filter(b, p)
  {
    if a == [] {
      assert a + b == b;
    } else {
      assert (a + b)[1..] == a[1..] + b;
      FilterConcat(a[1..], b, p);
    }
  }

  /** A filter that every element passes keeps the whole list. */
  lemma {:induction false} FilterKeepsAll<T>(s: seq<T>, p: T -> bool)
    requires forall i :: 0 <= i < |s| ==> p(s[i])
    ensures Filter(s, p) == s
  {
    if s != [] {
      FilterKeepsAll(s[1..], p);
    }
  }

  /** Two predicates that agree on the elements of `s` select the same sub-list. */
  lemma {:induction false} FilterSameOn<T>(s: seq<T>, p: T -> bool, q: T -> bool)
    requires forall i :: 0 <= i < |s| ==> p(s[i]) == q(s[i])
    ensures Filter(s, p) == Filter(s, q)
  {
    if s != [] {
      FilterSameOn(s[1..], p, q);
    }
  }

  /**
   * If `p` holds exactly when one of the exclusive predicates `a` and `b` holds,
   * the `a`-list and the `b`-list together are the `p`-list, element for element.
   */
  lemma {:induction false} FilterSplit<T>(s: seq<T>, p: T -> bool, a: T -> bool, b: T -> bool)
    requires forall i :: 0 <= i < |s| ==> (p(s[i]) <==> a(s[i]) || b(s[i]))
    requires forall i :: 0 <= i < |s| ==> !(a(s[i]) && b(s[i]))
    ensures multiset(Filter(s, a)) + multiset(Filter(s, b)) == multiset(Filter(s, p))
    ensures |Filter(s, a)| + |Filter(s, b)| == |Filter(s, p)|
  {
    if s != [] {
      FilterSplit(s[1..], p, a, b);
      var ha := FilterHead(s, a);
      var hb := FilterHead(s, b);
      var hp := FilterHead(s, p);
      SumOfParts(ha, hb, hp, multiset(Filter(s[1..], a)), multiset(Filter(s[1..], b)), multiset(Filter(s[1..], p)));
    }
  }

  /** The first element's share of a filter: itself when it passes, nothing otherwise. */
  lemma FilterHead<T>(s: seq<T>, q: T -> bool) returns (head: multiset<T>)
    requires s != []
    ensures head == if q(s[0]) then multiset{s[0]} else multiset{}
    ensures multiset(Filter(s, q)) == head + multiset(Filter(s[1..], q))
    ensures |Filter(s, q)| == |head| + |Filter(s[1..], q)|
  {
    head := if q(s[0]) then multiset{s[0]} else multiset{};
  }

  lemma SumOfParts<T>(ha: multiset<T>, hb: multiset<T>, hp: multiset<T>, ra: multiset<T>, rb: multiset<T>, rp: multiset<T>)
    requires ha + hb == hp && ra + rb == rp
    ensures (ha + ra) + (hb + rb) == hp + rp
  {
  }

  /** If exactly one of `a` and `b` holds of each element, the two filtered lists partition `s`. */
  lemma FilterPartition<T>(s: seq<T>, a: T -> bool, b: T -> bool)
    requires forall i :: 0 <= i < |s| ==> a(s[i]) != b(s[i])
    ensures multiset(Filter(s, a)) + multiset(Filter(s, b)) == multiset(s)
    ensures |Filter(s, a)| + |Filter(s, b)| == |s|
  {
    var all := (x: T) => true;
    FilterSplit(s, all, a, b);
    FilterKeepsAll(s, all);
  }

  /** `next((i for i, x in enumerate(s) if p(x)), None)`: the index of the first element satisfying `p`. */
  function FindFirst<T>(s: seq<T>, p: T -> bool): (r: Option<nat>)
    ensures r.Some? ==> r.value < |s| && p(s[r.value])
    ensures r.Some? ==> forall j :: 0 <= j < r.value ==> !p(s[j])
    ensures r.None? <==> forall j :: 0 <= j < |s| ==> !p(s[j])
  {
    if s == [] then None
    else if p(s[0]) then Some(0)
    else match FindFirst(s[1..], p)
      case None => None
      case Some(i) => Some(i + 1)
  }

  /** The index of the last element satisfying `p`. */
  function FindLast<T>(s: seq<T>, p: T -> bool): (r: Option<nat>)
    ensures r.Some? ==> r.value < |s| && p(s[r.value])
    ensures r.Some? ==> forall j :: r.value < j < |s| ==> !p(s[j])
    ensures r.None? <==> forall j :: 0 <= j < |s| ==> !p(s[j])
  {
    if s == [] then None
    else if p(s[|s| - 1]) then Some(|s| - 1)
    else FindLast(s[..|s| - 1], p)
  }

  /** Replacing one element changes the number of kept elements by at most one, as `p` says. */
  lemma FilterUpdateCount<T>(s: seq<T>, i: nat, y: T, p: T -> bool)
    requires i < |s|
    ensures |Filter(s[i := y], p)| + (if p(s[i]) then 1 else 0) == |Filter(s, p)| + (if p(y) then 1 else 0)
  {
    var pre, post := s[..i], s[i + 1..];
    assert s == pre + [s[i]] + post;
    assert s[i := y] == pre + [y] + post;
    FilterConcat(pre + [s[i]], post, p);
    FilterConcat(pre, [s[i]], p);
    FilterConcat(pre + [y], post, p);
    FilterConcat(pre, [y], p);
    assert |Filter([s[i]], p)| == (if p(s[i]) then 1 else 0);
    assert |Filter([y], p)| == (if p(y) then 1 else 0);
  }

  /** `s.index(x)`: the position of the first element equal to `x`. */
  function IndexOf<T(==)>(s: seq<T>, x: T): (i: nat)
    requires x in s
    ensures i < |s| && s[i] == x && x !in s[..i]
  {
    if s[0] == x then 0
    else
      var i := IndexOf(s[1..], x) + 1;
      assert s[..i] == [s[0]] + s[1..][..i - 1];
      i
  }

  /** `s.remove(x)`: drops the first element equal to `x` and keeps the rest in order. */
  function RemoveFirst<T(==)>(s: seq<T>, x: T): (r: seq<T>)
    requires x in s
    ensures r == s[..IndexOf(s, x)] + s[IndexOf(s, x) + 1..]
    ensures |r| == |s| - 1
    ensures multiset(r) == multiset(s) - multiset{x}
  {
    var i := IndexOf(s, x);
    assert s == s[..i] + [x] + s[i + 1..];
    s[..i] + s[i + 1..]
  }
}
