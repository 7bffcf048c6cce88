/** Generic building blocks shared by every model: an Option type and the
    list operations the scripts spell out as comprehensions and loops
    (filtering, first match with `break`, last match without `break`). */
module Base {

  datatype Option<+T> = None | Some(value: T) {
    /** Python's `d.get(key, default)` once the key lookup is modelled as an Option. */
    function GetOr(default: T): T {
      if Some? then value else default
    }
  }

  /** The elements of `s` that satisfy `p`, in their original order. */
  function Filter<T>(s: seq<T>, p: T -> bool): (r: seq<T>)
    ensures |r| <= |s|
    ensures forall x :: x in r ==> x in s && p(x)
  {
    if s == [] then [] else (if p(s[0]) then [s[0]] else []) + Filter(s[1..], p)
  }

  lemma {:induction false} FilterComplete<T>(s: seq<T>, p: T -> bool, x: T)
    requires x in s && p(x)
    ensures x in Filter(s, p)
  {
    if s[0] != x {
      FilterComplete(s[1..], p, x);
    }
  }

  lemma {:induction false} FilterAppend<T>(s: seq<T>, t: seq<T>, p: T -> bool)
    ensures Filter(s + t, p) == Filter(s, p) + Filter(t, p)
  {
    if s == [] {
      assert s + t == t;
    } else {
      assert (s + t)[1..] == s[1..] + t;
      FilterAppend(s[1..], t, p);
    }
  }

  /** One more element of `s` examined by a filtering loop. */
  lemma FilterSnoc<T>(s: seq<T>, n: nat, p: T -> bool)
    requires n < |s|
    ensures Filter(s[..n + 1], p) == Filter(s[..n], p) + (if p(s[n]) then [s[n]] else [])
  {
    assert s[..n + 1] == s[..n] + [s[n]];
    FilterAppend(s[..n], [s[n]], p);
    assert [s[n]][1..] == [];
  }

  /** One more element of `s` examined by a loop that keeps `f` of the elements satisfying `p`. */
  lemma FilterMapSnoc<A, B>(s: seq<A>, n: nat, p: A -> bool, f: A -> B)
    requires n < |s|
    ensures Map(f, Filter(s[..n + 1], p)) == Map(f, Filter(s[..n], p)) + (if p(s[n]) then [f(s[n])] else [])
  {
    FilterSnoc(s, n, p);
    var kept := Filter(s[..n], p);
    if p(s[n]) {
      MapAppend(f, kept, [s[n]]);
    } else {
      assert kept + [] == kept;
    }
  }

  /** One more element of `s` transformed by a mapping loop. */
  lemma MapSnoc<A, B>(f: A -> B, s: seq<A>, n: nat)
    requires n < |s|
    ensures Map(f, s[..n + 1]) == Map(f, s[..n]) + [f(s[n])]
  {
    assert s[..n + 1] == s[..n] + [s[n]];
    MapAppend(f, s[..n], [s[n]]);
  }

  /** Filtering keeps relative order: `Filter(s, p)` is a subsequence of `s`. */
  ghost predicate IsSubsequence<T>(a: seq<T>, b: seq<T>)
    decreases |b|
  {
    a == [] || (b != [] && ((a[0] == b[0] && IsSubsequence(a[1..], b[1..])) || IsSubsequence(a, b[1..])))
  }

  lemma {:induction false} FilterIsSubsequence<T>(s: seq<T>, p: T -> bool)
    ensures IsSubsequence(Filter(s, p), s)
  {
    if s != [] {
      FilterIsSubsequence(s[1..], p);
      if p(s[0]) {
        assert Filter(s, p) == [s[0]] + Filter(s[1..], p);
        assert Filter(s, p)[1..] == Filter(s[1..], p);
      } else {
        assert Filter(s, p) == Filter(s[1..], p);
      }
    }
  }

  /** The number of elements of `s` that satisfy `p`. */
  function Count<T>(s: seq<T>, p: T -> bool): nat
  {
    if s == [] then 0 else (if p(s[0]) then 1 else 0) + Count(s[1..], p)
  }

  lemma {:induction false} FilterLength<T>(s: seq<T>, p: T -> bool)
    ensures |Filter(s, p)| == Count(s, p)
  {
    if s != [] {
      FilterLength(s[1..], p);
    }
  }

  /** Index of the first element satisfying `p`: a loop that stops at its first `break`. */
  function FirstIndex<T>(s: seq<T>, p: T -> bool): (r: Option<nat>)
    ensures r.Some? ==> r.value < |s| && p(s[r.value]) && forall j :: 0 <= j < r.value ==> !p(s[j])
    ensures r.None? ==> forall j :: 0 <= j < |s| ==> !p(s[j])
  {
    if s == [] then None
    else if p(s[0]) then Some(0)
    else match FirstIndex(s[1..], p)
      case None => None
      case Some(k) => Some(k + 1)
  }

  /** Index of the last element satisfying `p`: a loop that keeps reassigning its match. */
  function LastIndex<T>(s: seq<T>, p: T -> bool): (r: Option<nat>)
    ensures r.Some? ==> r.value < |s| && p(s[r.value]) && forall j :: r.value < j < |s| ==> !p(s[j])
    ensures r.None? ==> forall j :: 0 <= j < |s| ==> !p(s[j])
  {
    if s == [] then None
    else match LastIndex(s[..|s| - 1], p)
      case None => if p(s[|s| - 1]) then Some(|s| - 1) else None
      case Some(k) => if p(s[|s| - 1]) then Some(|s| - 1) else Some(k)
  }

  /** The first element satisfying `p`, if any. */
  function FirstWhere<T>(s: seq<T>, p: T -> bool): (r: Option<T>)
    ensures r.Some? <==> exists j :: 0 <= j < |s| && p(s[j])
    ensures r.Some? ==> r.value in s && p(r.value)
  {
    match FirstIndex(s, p)
    case None => None
    case Some(k) => Some(s[k])
  }

  /** Concatenation of a list of lists, in order. */
  function Flatten<T>(ss: seq<seq<T>>): seq<T>
  {
    if ss == [] then [] else ss[0] + Flatten(ss[1..])
  }

  lemma {:induction false} FlattenAppend<T>(ss: seq<seq<T>>, t: seq<T>)
    ensures Flatten(ss + [t]) == Flatten(ss) + t
  {
    if ss == [] {
      assert ss + [t] == [t];
    } else {
      assert (ss + [t])[1..] == ss[1..] + [t];
      FlattenAppend(ss[1..], t);
    }
  }

  /** `[f(x) for x in s]`. */
  function Map<A, B>(f: A -> B, s: seq<A>): (r: seq<B>)
    ensures |r| == |s|
    ensures forall i :: 0 <= i < |s| ==> r[i] == f(s[i])
  {
    seq(|s|, i requires 0 <= i < |s| => f(s[i]))
  }

  /** Concatenation regroups: four parts joined in any grouping give one sequence. */
  lemma ConcatRegroup<T>(a: seq<T>, b: seq<T>, c: seq<T>, d: seq<T>)
    ensures a + (b + c) == a + b + c
    ensures a + (b + (c + d)) == a + b + c + d
  {
    assert b + (c + d) == b + c + d;
    assert a + ((b + c) + d) == (a + (b + c)) + d;
  }

  lemma MapAppend<A, B>(f: A -> B, s: seq<A>, t: seq<A>)
    ensures Map(f, s + t) == Map(f, s) + Map(f, t)
  {
  }

  lemma {:induction false} CountAppend<T>(s: seq<T>, t: seq<T>, p: T -> bool)
    ensures Count(s + t, p) == Count(s, p) + Count(t, p)
  {
    FilterAppend(s, t, p);
    FilterLength(s + t, p);
    FilterLength(s, p);
    FilterLength(t, p);
  }

  /** Each element satisfies exactly one of `p` and its negation. */
  lemma {:induction false} CountSplit<T>(s: seq<T>, p: T -> bool, q: T -> bool)
    requires forall x :: q(x) <==> !p(x)
    ensures Count(s, p) + Count(s, q) == |s|
  {
    if s != [] {
      CountSplit(s[1..], p, q);
    }
  }

  function Min(a: int, b: int): int
  {
    if a <= b then a else b
  }

  lemma {:induction false} FlattenConcat<T>(ss: seq<seq<T>>, tt: seq<seq<T>>)
    ensures Flatten(ss + tt) == Flatten(ss) + Flatten(tt)
  {
    if ss == [] {
      assert ss + tt == tt;
    } else {
      assert (ss + tt)[1..] == ss[1..] + tt;
      FlattenConcat(ss[1..], tt);
    }
  }

  /** An element of a concatenation comes from one of the concatenated lists, and every
      element of every list is in the concatenation. */
  lemma {:induction false} FlattenMember<T>(ss: seq<seq<T>>, x: T)
    ensures x in Flatten(ss) <==> exists k :: 0 <= k < |ss| && x in ss[k]
  {
    if ss != [] {
      FlattenMember(ss[1..], x);
      if exists k :: 0 <= k < |ss[1..]| && x in ss[1..][k] {
        var k :| 0 <= k < |ss[1..]| && x in ss[1..][k];
        assert x in ss[k + 1];
      }
      if exists k :: 0 <= k < |ss| && x in ss[k] {
        var k :| 0 <= k < |ss| && x in ss[k];
        if k > 0 {
          assert x in ss[1..][k - 1];
        }
      }
    }
  }
}
