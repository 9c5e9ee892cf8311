/** Sequence helpers shared by the model: the `filter`/`length` and `ORDER BY`
    idioms that the TypeScript sources and their SQL queries use. */
module Collections {

  datatype Option<+T> = None | Some(value: T)

  datatype Result<+T, +E> = Success(value: T) | Failure(error: E)

  /** `s.filter(p)`: the elements of `s` that satisfy `p`, in their original order. */
  function Filter<T(!new)>(s: seq<T>, p: T -> bool): (r: seq<T>)
    ensures |r| <= |s|
    ensures forall x :: x in r <==> x in s && p(x)
    ensures forall i :: 0 <= i < |r| ==> p(r[i])
  {
    if s == [] then []
    else if p(s[0]) then [s[0]] + Filter(s[1..], p)
    else Filter(s[1..], p)
  }

  /** `s.filter(p).length` */
  function Count<T>(s: seq<T>, p: T -> bool): nat
  {
    if s == [] then 0
    else (if p(s[0]) then 1 else 0) + Count(s[1..], p)
  }

  lemma {:induction false} CountIsFilterLength<T(!new)>(s: seq<T>, p: T -> bool)
    ensures Count(s, p) == |Filter(s, p)|
  {
    if s != [] {
      CountIsFilterLength(s[1..], p);
    }
  }

  /** A filter that keeps every element returns its input unchanged. */
  lemma {:induction false} FilterKeepsAll<T(!new)>(s: seq<T>, p: T -> bool)
    requires forall i :: 0 <= i < |s| ==> p(s[i])
    ensures Filter(s, p) == s
  {
    if s != [] {
      FilterKeepsAll(s[1..], p);
    }
  }

  /** A filter that rejects every element leaves nothing. */
  lemma {:induction false} FilterKeepsNone<T(!new)>(s: seq<T>, p: T -> bool)
    requires forall i :: 0 <= i < |s| ==> !p(s[i])
    ensures Filter(s, p) == []
  {
    if s != [] {
      FilterKeepsNone(s[1..], p);
    }
  }

  /** A filter that rejects some element is shorter than its input. */
  lemma {:induction false} FilterDropsSome<T(!new)>(s: seq<T>, p: T -> bool, k: nat)
    requires k < |s| && !p(s[k])
    ensures |Filter(s, p)| < |s|
  {
    if k > 0 {
      FilterDropsSome(s[1..], p, k - 1);
    }
  }

  /** Elements that both predicates treat alike are filtered alike. */
  lemma {:induction false} FilterCongruent<T(!new)>(s: seq<T>, p: T -> bool, q: T -> bool)
    requires forall i :: 0 <= i < |s| ==> p(s[i]) == q(s[i])
    ensures Filter(s, p) == Filter(s, q)
  {
    if s != [] {
      FilterCongruent(s[1..], p, q);
    }
  }

  /** `Filter` distributes over concatenation. */
  lemma {:induction false} FilterAppend<T(!new)>(s: seq<T>, t: seq<T>, p: T -> bool)
    ensures Filter(s + t, p) == Filter(s, p) + Filter(t, p)
  {
    if s == [] {
      assert s + t == t;
    } else {
      assert (s + t)[1..] == s[1..] + t;
      FilterAppend(s[1..], t, p);
    }
  }

  /** A property of ordered pairs that holds of a sequence holds of every filter of it. */
  lemma {:induction false} FilterKeepsPairwise<T(!new)>(s: seq<T>, p: T -> bool, rel: (T, T) -> bool)
    requires forall i, j :: 0 <= i < j < |s| ==> rel(s[i], s[j])
    ensures forall i, j :: 0 <= i < j < |Filter(s, p)| ==> rel(Filter(s, p)[i], Filter(s, p)[j])
  {
    if s != [] {
      var rest := Filter(s[1..], p);
      FilterKeepsPairwise(s[1..], p, rel);
      if p(s[0]) {
        var r := [s[0]] + rest;
        forall i, j | 0 <= i < j < |r| ensures rel(r[i], r[j]) {
          if i == 0 {
            assert rest[j - 1] in s[1..];
            var k :| 0 <= k < |s[1..]| && s[1..][k] == rest[j - 1];
            assert s[k + 1] == r[j];
          } else {
            assert r[i] == rest[i - 1] && r[j] == rest[j - 1];
          }
        }
        assert Filter(s, p) == r;
      }
    }
  }

  /** Sort keys compared lexicographically; a one-key order uses 0 as second component. */
  type Key = (int, int)

  predicate KeyLe(a: Key, b: Key)
  {
    a.0 < b.0 || (a.0 == b.0 && a.1 <= b.1)
  }

  predicate SortedBy<T>(s: seq<T>, key: T -> Key)
  {
    forall i, j :: 0 <= i < j < |s| ==> KeyLe(key(s[i]), key(s[j]))
  }

  function Insert<T>(x: T, s: seq<T>, key: T -> Key): (r: seq<T>)
    requires SortedBy(s, key)
    ensures SortedBy(r, key)
    ensures multiset(r) == multiset(s) + multiset{x}
  {
    if s == [] then [x]
    else if KeyLe(key(x), key(s[0])) then
      ConsSorted(x, s, key);
      [x] + s
    else
      var rest := Insert(x, s[1..], key);
      assert s == [s[0]] + s[1..];
      HeadBelowInsert(s, x, rest, key);
      ConsSorted(s[0], rest, key);
      [s[0]] + rest
  }

  /** The head of a sorted sequence is below everything the insertion into its tail
      produces, when it is below the inserted element. */
  lemma HeadBelowInsert<T>(s: seq<T>, x: T, rest: seq<T>, key: T -> Key)
    requires s != [] && SortedBy(s, key) && KeyLe(key(s[0]), key(x))
    requires multiset(rest) == multiset(s[1..]) + multiset{x}
    ensures forall k :: 0 <= k < |rest| ==> KeyLe(key(s[0]), key(rest[k]))
  {
    forall k | 0 <= k < |rest| ensures KeyLe(key(s[0]), key(rest[k])) {
      assert rest[k] in multiset(rest);
      if rest[k] != x {
        assert rest[k] in multiset(s[1..]);
        var j :| 0 <= j < |s[1..]| && s[1..][j] == rest[k];
        assert s[j + 1] == rest[k];
      }
    }
  }

  /** A sorted sequence stays sorted under a head that is below all of it. */
  lemma ConsSorted<T>(h: T, t: seq<T>, key: T -> Key)
    requires SortedBy(t, key)
    requires forall k :: 0 <= k < |t| ==> KeyLe(key(h), key(t[k]))
    ensures SortedBy([h] + t, key)
  {
    var u := [h] + t;
    forall i, j | 0 <= i < j < |u| ensures KeyLe(key(u[i]), key(u[j])) {
      assert u[j] == t[j - 1];
      if i > 0 {
        assert u[i] == t[i - 1];
      }
    }
  }

  /** `[...s].sort(compare)` / `ORDER BY`: a sorted permutation of `s`. The order
      of rows with equal keys is not stated: SQL leaves it open, and the stability
      that `Array.prototype.sort` guarantees is not part of this contract. */
  function SortBy<T>(s: seq<T>, key: T -> Key): (r: seq<T>)
    ensures SortedBy(r, key)
    ensures multiset(r) == multiset(s)
    ensures |r| == |s|
  {
    if s == [] then []
    else
      assert s == [s[0]] + s[1..];
      Insert(s[0], SortBy(s[1..], key), key)
  }
}
