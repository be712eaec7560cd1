/** The list edits the forms perform with `Array.prototype.filter` and
    spread-append, and the facts about them the forms rely on. */
module Lists {

  /** `s.filter(p)`: the elements satisfying `p`, in their original order. */
  function Filter<T(==)>(s: seq<T>, p: T -> bool): (r: seq<T>)
    ensures |r| <= |s|
    ensures forall i :: 0 <= i < |r| ==> r[i] in s && p(r[i])
    ensures forall i :: 0 <= i < |s| && p(s[i]) ==> s[i] in r
    ensures forall x | x in s :: multiset(r)[x] == if p(x) then multiset(s)[x] else 0
    decreases |s|
  {
    if s == [] then []
    else
      var rest := Filter(s[1..], p);
      FilterStep(s, p, rest);
      (if p(s[0]) then [s[0]] else []) + rest
  }

  /** The clauses of `Filter` carry over from the tail to the whole list. */
  lemma FilterStep<T>(s: seq<T>, p: T -> bool, rest: seq<T>)
    requires s != [] && |rest| <= |s| - 1
    requires forall i :: 0 <= i < |rest| ==> rest[i] in s[1..] && p(rest[i])
    requires forall i :: 0 <= i < |s| - 1 && p(s[1..][i]) ==> s[1..][i] in rest
    requires forall x | x in s[1..] :: multiset(rest)[x] == if p(x) then multiset(s[1..])[x] else 0
    ensures var r := (if p(s[0]) then [s[0]] else []) + rest;
      |r| <= |s| &&
      (forall i :: 0 <= i < |r| ==> r[i] in s && p(r[i])) &&
      (forall i :: 0 <= i < |s| && p(s[i]) ==> s[i] in r) &&
      (forall x | x in s :: multiset(r)[x] == if p(x) then multiset(s)[x] else 0)
  {
    var r := (if p(s[0]) then [s[0]] else []) + rest;
    assert s == [s[0]] + s[1..];
    forall i | 0 < i < |s| && p(s[i])
      ensures s[i] in r
    {
      assert s[i] == s[1..][i - 1];
    }
    forall x | x in s
      ensures multiset(r)[x] == if p(x) then multiset(s)[x] else 0
    {
      if x !in s[1..] {
        assert x !in multiset(rest);
      }
    }
  }

  /** `a` is `b` with some elements left out and the rest in order. */
  predicate IsSubseq<T(==)>(a: seq<T>, b: seq<T>)
    decreases |b|
  {
    a == [] || (b != [] && ((a[0] == b[0] && IsSubseq(a[1..], b[1..])) || IsSubseq(a, b[1..])))
  }

  lemma {:induction false} FilterIsSubseq<T>(s: seq<T>, p: T -> bool)
    ensures IsSubseq(Filter(s, p), s)
    decreases |s|
  {
    if s != [] {
      FilterIsSubseq(s[1..], p);
      var r := Filter(s, p);
      if p(s[0]) {
        assert r[0] == s[0] && r[1..] == Filter(s[1..], p);
      } else {
        assert r == Filter(s[1..], p);
      }
    }
  }

  /** Every list is a subsequence of itself. */
  lemma {:induction false} SubseqRefl<T>(s: seq<T>)
    ensures IsSubseq(s, s)
    decreases |s|
  {
    if s != [] {
      SubseqRefl(s[1..]);
    }
  }

  /** Leaving out elements twice is leaving them out once. */
  lemma {:induction false} SubseqTrans<T>(a: seq<T>, b: seq<T>, c: seq<T>)
    requires IsSubseq(a, b) && IsSubseq(b, c)
    ensures IsSubseq(a, c)
    decreases |c|
  {
    if a != [] {
      if IsSubseq(b, c[1..]) {
        SubseqTrans(a, b, c[1..]);
      } else {
        assert b[0] == c[0] && IsSubseq(b[1..], c[1..]);
        if a[0] == b[0] && IsSubseq(a[1..], b[1..]) {
          SubseqTrans(a[1..], b[1..], c[1..]);
        } else {
          SubseqTrans(a, b[1..], c[1..]);
        }
      }
    }
  }

  /** A subsequence holds only elements of the list. */
  lemma {:induction false} SubseqMembers<T>(a: seq<T>, b: seq<T>)
    requires IsSubseq(a, b)
    ensures forall i :: 0 <= i < |a| ==> a[i] in b
    decreases |b|
  {
    if a != [] {
      if IsSubseq(a, b[1..]) {
        SubseqMembers(a, b[1..]);
      } else {
        SubseqMembers(a[1..], b[1..]);
        forall i | 0 < i < |a|
          ensures a[i] in b
        {
          assert a[i] == a[1..][i - 1];
        }
      }
    }
  }

  /** Filtering keeps every element when all of them pass. */
  lemma {:induction false} FilterAll<T>(s: seq<T>, p: T -> bool)
    requires forall i :: 0 <= i < |s| ==> p(s[i])
    ensures Filter(s, p) == s
    decreases |s|
  {
    if s != [] {
      FilterAll(s[1..], p);
      assert [s[0]] + s[1..] == s;
    }
  }

  /** Filtering with a predicate implied by `q` and then with `q` is the same
      as filtering with `q` alone. */
  lemma {:induction false} FilterFilter<T>(s: seq<T>, p: T -> bool, q: T -> bool)
    requires forall x :: q(x) ==> p(x)
    ensures Filter(Filter(s, p), q) == Filter(s, q)
    decreases |s|
  {
    if s != [] {
      FilterFilter(s[1..], p, q);
      if p(s[0]) {
        var f := Filter(s, p);
        assert f == [s[0]] + Filter(s[1..], p);
        assert f[0] == s[0] && f[1..] == Filter(s[1..], p);
        assert Filter(f, q) == (if q(s[0]) then [s[0]] else []) + Filter(f[1..], q);
      } else {
        assert !q(s[0]);
        assert Filter(s, p) == Filter(s[1..], p);
        assert Filter(s, q) == Filter(s[1..], q);
      }
    }
  }

  /** Predicates that agree on every element filter alike. */
  lemma {:induction false} FilterCongruent<T>(s: seq<T>, p: T -> bool, q: T -> bool)
    requires forall i :: 0 <= i < |s| ==> p(s[i]) == q(s[i])
    ensures Filter(s, p) == Filter(s, q)
    decreases |s|
  {
    if s != [] {
      FilterCongruent(s[1..], p, q);
    }
  }

  /** Filtering out the one element that fails removes exactly that slot. */
  lemma {:induction false} FilterDropsOne<T>(s: seq<T>, p: T -> bool, k: int)
    requires 0 <= k < |s| && !p(s[k])
    requires forall i :: 0 <= i < |s| && i != k ==> p(s[i])
    ensures Filter(s, p) == s[..k] + s[k + 1..]
    decreases |s|
  {
    if k == 0 {
      FilterAll(s[1..], p);
      assert s[..0] + s[1..] == s[1..];
    } else {
      DropsOneTail(s, p, k);
      FilterDropsOne(s[1..], p, k - 1);
      DropsOneCons(s, p, k);
    }
  }

  /** The step of `FilterDropsOne` past a passing first element. */
  lemma DropsOneCons<T>(s: seq<T>, p: T -> bool, k: int)
    requires 0 < k < |s| && p(s[0])
    requires Filter(s[1..], p) == s[1..][..k - 1] + s[1..][k..]
    ensures Filter(s, p) == s[..k] + s[k + 1..]
  {
    FilterKeepsHead(s, p);
    ConsSlices(s, k);
  }

  /** A passing first element stays first. */
  lemma FilterKeepsHead<T>(s: seq<T>, p: T -> bool)
    requires s != [] && p(s[0])
    ensures Filter(s, p) == [s[0]] + Filter(s[1..], p)
  {
  }

  lemma ConsSlices<T>(s: seq<T>, k: int)
    requires 0 < k < |s|
    ensures [s[0]] + (s[1..][..k - 1] + s[1..][k..]) == s[..k] + s[k + 1..]
  {
    assert [s[0]] + s[1..][..k - 1] == s[..k];
  }

  /** The tail of a list whose only failing element is at `k > 0` has its
      only failing element at `k - 1`. */
  lemma DropsOneTail<T>(s: seq<T>, p: T -> bool, k: int)
    requires 0 < k < |s|
    requires forall i :: 0 <= i < |s| && i != k ==> p(s[i])
    ensures p(s[0])
    ensures forall i :: 0 <= i < |s| - 1 && i != k - 1 ==> p(s[1..][i])
  {
    forall i | 0 <= i < |s| - 1 && i != k - 1
      ensures p(s[1..][i])
    {
      assert s[1..][i] == s[i + 1];
    }
  }

  /** Filtering twice with the same predicate is filtering once. */
  lemma FilterIdempotent<T>(s: seq<T>, p: T -> bool)
    ensures Filter(Filter(s, p), p) == Filter(s, p)
  {
    FilterFilter(s, p, p);
  }

  /** Number of elements of `s` equal to `x`. */
  function Count<T(==)>(s: seq<T>, x: T): nat
    decreases |s|
  {
    if s == [] then 0 else (if s[0] == x then 1 else 0) + Count(s[1..], x)
  }

  lemma {:induction false} CountConcat<T>(a: seq<T>, b: seq<T>, x: T)
    ensures Count(a + b, x) == Count(a, x) + Count(b, x)
    decreases |a|
  {
    if a != [] {
      CountConcat(a[1..], b, x);
      assert (a + b)[1..] == a[1..] + b;
    } else {
      assert a + b == b;
    }
  }

  lemma {:induction false} CountZero<T>(s: seq<T>, x: T)
    ensures Count(s, x) == 0 <==> x !in s
    decreases |s|
  {
    if s != [] {
      CountZero(s[1..], x);
      assert s == [s[0]] + s[1..];
    }
  }

  /** `s.filter(y => y !== x)`: every `x` goes, all else stays in order. */
  function RemoveAll<T(==)>(s: seq<T>, x: T): (r: seq<T>)
    ensures x !in r
    ensures forall i :: 0 <= i < |r| ==> r[i] in s
    ensures forall i :: 0 <= i < |s| && s[i] != x ==> s[i] in r
    ensures |r| == |s| - Count(s, x)
    decreases |s|
  {
    if s == [] then []
    else (if s[0] == x then [] else [s[0]]) + RemoveAll(s[1..], x)
  }

  /** `RemoveAll` is the value filter of the source. */
  lemma {:induction false} RemoveAllIsFilter<T>(s: seq<T>, x: T)
    ensures RemoveAll(s, x) == Filter(s, y => y != x)
    ensures IsSubseq(RemoveAll(s, x), s)
    decreases |s|
  {
    if s != [] {
      RemoveAllIsFilter(s[1..], x);
    }
    FilterIsSubseq(s, y => y != x);
  }

  /** `s.filter((_, i) => i !== idx)`: the element at `idx` goes, when there
      is one, and the others stay in order. */
  function RemoveAt<T>(s: seq<T>, idx: int): (r: seq<T>)
    ensures 0 <= idx < |s| ==> r == s[..idx] + s[idx + 1..]
    ensures !(0 <= idx < |s|) ==> r == s
    decreases |s|
  {
    if s == [] then []
    else (if idx == 0 then [] else [s[0]]) + RemoveAt(s[1..], idx - 1)
  }

  /** No element occurs twice. */
  predicate NoDup<T(==)>(s: seq<T>) {
    forall i, j :: 0 <= i < j < |s| ==> s[i] != s[j]
  }

  lemma NoDupAppend<T>(s: seq<T>, x: T)
    ensures NoDup(s) && x !in s ==> NoDup(s + [x])
  {
  }

  lemma {:induction false} NoDupRemoveAll<T>(s: seq<T>, x: T)
    requires NoDup(s)
    ensures NoDup(RemoveAll(s, x))
    decreases |s|
  {
    if s != [] {
      NoDupRemoveAll(s[1..], x);
      assert s[0] !in s[1..];
    }
  }

  lemma NoDupRemoveAt<T>(s: seq<T>, idx: int)
    ensures NoDup(s) ==> NoDup(RemoveAt(s, idx))
  {
    if NoDup(s) && 0 <= idx < |s| {
      var r := RemoveAt(s, idx);
      forall i, j | 0 <= i < j < |r|
        ensures r[i] != r[j]
      {
        var i' := if i < idx then i else i + 1;
        var j' := if j < idx then j else j + 1;
        assert r[i] == s[i'] && r[j] == s[j'];
      }
    }
  }
}
