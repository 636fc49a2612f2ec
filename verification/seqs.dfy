/** Generic sequence helpers: the filter loops the Go code writes by hand. */
module Seqs {
  import opened Wrappers

  /** The elements of `s` satisfying `p`, in their original order. */
  function Filter<T>(s: seq<T>, p: T -> bool): (r: seq<T>)
    ensures |r| <= |s|
    ensures forall i :: 0 <= i < |r| ==> p(r[i])
    decreases |s|
  {
    if s == [] then []
    else
      var rest := Filter(s[1..], p);
      if p(s[0]) then [s[0]] + rest else rest
  }

  /** An element is kept exactly when it occurs in the input and satisfies the predicate. */
  lemma {:induction false} FilterMembership<T>(s: seq<T>, p: T -> bool, x: T)
    ensures x in Filter(s, p) <==> x in s && p(x)
    decreases |s|
  {
    if s != [] {
      FilterMembership(s[1..], p, x);
      assert s == [s[0]] + s[1..];
    }
  }

  /** The filter keeps every satisfying element as often as it occurs, and no other. */
  lemma {:induction false} FilterMultiset<T>(s: seq<T>, p: T -> bool, x: T)
    ensures multiset(Filter(s, p))[x] == if p(x) then multiset(s)[x] else 0
    decreases |s|
  {
    if s != [] {
      FilterMultiset(s[1..], p, x);
      assert s == [s[0]] + s[1..];
    }
  }

  /** A filter comes back empty exactly when no element satisfies the predicate. */
  lemma {:induction false} FilterEmptyIff<T>(s: seq<T>, p: T -> bool)
    ensures Filter(s, p) == [] <==> forall i :: 0 <= i < |s| ==> !p(s[i])
    decreases |s|
  {
    if s != [] {
      FilterEmptyIff(s[1..], p);
      if forall i :: 0 <= i < |s[1..]| ==> !p(s[1..][i]) {
        forall i | 0 < i < |s|
          ensures !p(s[i])
        {
          assert s[i] == s[1..][i - 1];
        }
      }
    }
  }

  /** Filtering distributes over concatenation. */
  lemma {:induction false} FilterAppend<T>(a: seq<T>, b: seq<T>, p: T -> bool)
    ensures Filter(a + b, p) == Filter(a, p) + Filter(b, p)
    decreases |a|
  {
    if a == [] {
      assert a + b == b;
    } else {
      assert (a + b)[0] == a[0];
      assert (a + b)[1..] == a[1..] + b;
      FilterAppend(a[1..], b, p);
    }
  }

  /** A sequence whose elements all satisfy the predicate is kept whole. */
  lemma {:induction false} FilterAllKept<T>(s: seq<T>, p: T -> bool)
    requires forall i :: 0 <= i < |s| ==> p(s[i])
    ensures Filter(s, p) == s
    decreases |s|
  {
    if s != [] {
      FilterAllKept(s[1..], p);
    }
  }

  /** The last element satisfying `p`, or None. */
  function LastWhere<T>(s: seq<T>, p: T -> bool): (r: Option<T>)
    ensures r.None? <==> Filter(s, p) == []
    ensures r.Some? ==> p(r.value) && r.value == Filter(s, p)[|Filter(s, p)| - 1]
  {
    var f := Filter(s, p);
    if f == [] then None else Some(f[|f| - 1])
  }

  /** `f` applied to every element, in order. */
  function Map<T, U>(s: seq<T>, f: T -> U): (r: seq<U>)
    ensures |r| == |s|
    ensures forall i :: 0 <= i < |s| ==> r[i] == f(s[i])
  {
    seq(|s|, i requires 0 <= i < |s| => f(s[i]))
  }

  lemma MapAppend<T, U>(a: seq<T>, b: seq<T>, f: T -> U)
    ensures Map(a + b, f) == Map(a, f) + Map(b, f)
  {
    var l, r := Map(a + b, f), Map(a, f) + Map(b, f);
    assert |l| == |r|;
    forall i | 0 <= i < |l|
      ensures l[i] == r[i]
    {
      if i < |a| {
        assert (a + b)[i] == a[i];
      } else {
        assert (a + b)[i] == b[i - |a|];
      }
    }
  }

  /** The results of `f` on every element, laid end to end. */
  function FlatMap<T, U>(s: seq<T>, f: T -> seq<U>): seq<U>
    decreases |s|
  {
    if s == [] then [] else FlatMap(s[..|s| - 1], f) + f(s[|s| - 1])
  }

  lemma {:induction false} FlatMapAppend<T, U>(a: seq<T>, b: seq<T>, f: T -> seq<U>)
    ensures FlatMap(a + b, f) == FlatMap(a, f) + FlatMap(b, f)
    decreases |b|
  {
    if b == [] {
      assert a + b == a;
    } else {
      var init := b[..|b| - 1];
      assert (a + b)[..|a + b| - 1] == a + init;
      FlatMapAppend(a, init, f);
    }
  }

  /** `n(y)` copies of `y` for every element `y`, in order. */
  function Repeats<T>(s: seq<T>, n: T -> nat): seq<T> {
    FlatMap(s, (y: T) => seq(n(y), _ => y))
  }

  lemma RepeatsSnoc<T>(s: seq<T>, n: T -> nat)
    requires s != []
    ensures Repeats(s, n) == Repeats(s[..|s| - 1], n) + seq(n(s[|s| - 1]), _ => s[|s| - 1])
  {
  }

  lemma RepeatsSingle<T>(x: T, n: T -> nat)
    ensures Repeats([x], n) == seq(n(x), _ => x)
  {
    RepeatsSnoc([x], n);
    assert [x][..0] == [];
  }

  /** An element occurs in `Repeats` as often as in the list times its count. */
  lemma {:induction false} RepeatsCount<T>(s: seq<T>, n: T -> nat, x: T)
    ensures multiset(Repeats(s, n))[x] == multiset(s)[x] * n(x)
    decreases |s|
  {
    if s != [] {
      var init, y := s[..|s| - 1], s[|s| - 1];
      RepeatsCount(init, n, x);
      var copies := seq(n(y), _ => y);
      RepeatsSnoc(s, n);
      CopiesCount(n(y), y, x);
      ConcatCount(Repeats(init, n), copies, x);
      ConcatCount(init, [y], x);
      assert s == init + [y];
      var a := multiset(init)[x];
      if x == y {
        assert multiset(s)[x] == a + 1;
        ProductStep(a, n(x));
      } else {
        assert multiset(s)[x] == a;
      }
    }
  }

  /** `Repeats` is empty exactly when every count is zero. */
  lemma {:induction false} RepeatsEmpty<T>(s: seq<T>, n: T -> nat)
    ensures Repeats(s, n) == [] <==> forall i :: 0 <= i < |s| ==> n(s[i]) == 0
    decreases |s|
  {
    if s != [] {
      var init, y := s[..|s| - 1], s[|s| - 1];
      RepeatsEmpty(init, n);
      RepeatsSnoc(s, n);
      assert forall i :: 0 <= i < |init| ==> init[i] == s[i];
    }
  }

  /** An element is repeated exactly when it is in the list with a positive count. */
  lemma RepeatsMembership<T>(s: seq<T>, n: T -> nat, x: T)
    ensures x in Repeats(s, n) <==> x in s && n(x) > 0
  {
    RepeatsCount(s, n, x);
    assert x in Repeats(s, n) <==> multiset(Repeats(s, n))[x] > 0;
  }

  lemma {:induction false} CopiesCount<T>(k: nat, y: T, x: T)
    ensures multiset(seq(k, _ => y))[x] == if x == y then k else 0
  {
    if k > 0 {
      CopiesCount(k - 1, y, x);
      assert seq(k, _ => y) == seq(k - 1, _ => y) + [y];
    }
  }

  lemma ConcatCount<T>(a: seq<T>, b: seq<T>, x: T)
    ensures multiset(a + b)[x] == multiset(a)[x] + multiset(b)[x]
  {
  }

  lemma ProductStep(a: int, b: int)
    ensures (a + 1) * b == a * b + b
  {
  }

  /** Two functions that agree on every element give the same result. */
  lemma {:induction false} FlatMapAgree<T, U>(s: seq<T>, f: T -> seq<U>, g: T -> seq<U>)
    requires forall i :: 0 <= i < |s| ==> f(s[i]) == g(s[i])
    ensures FlatMap(s, f) == FlatMap(s, g)
    decreases |s|
  {
    if s != [] {
      FlatMapAgree(s[..|s| - 1], f, g);
    }
  }

  /** Whether `entry` maps `x` to an assignment of key `k`. */
  predicate AssignsKey<T, K(==), V>(entry: T -> Option<(K, V)>, x: T, k: K) {
    entry(x).Some? && entry(x).value.0 == k
  }

  /** The map a loop builds by performing, in order, the assignment
      `m[key] = value` that `entry` yields for each element (if any). */
  function AssignAll<T, K(==), V>(s: seq<T>, entry: T -> Option<(K, V)>): map<K, V>
    decreases |s|
  {
    if s == [] then map[]
    else
      var m := AssignAll(s[..|s| - 1], entry);
      match entry(s[|s| - 1])
      case None => m
      case Some(kv) => m[kv.0 := kv.1]
  }

  /** Assigning the images of the elements under `f` builds the same map as
      assigning the elements themselves, when the two entries agree. */
  lemma {:induction false} AssignAllMap<T, U, K, V>(s: seq<T>, f: T -> U, e: U -> Option<(K, V)>, d: T -> Option<(K, V)>)
    requires forall i :: 0 <= i < |s| ==> e(f(s[i])) == d(s[i])
    ensures AssignAll(Map(s, f), e) == AssignAll(s, d)
    decreases |s|
  {
    if s != [] {
      var init := s[..|s| - 1];
      var ms := Map(s, f);
      assert ms[..|ms| - 1] == Map(init, f);
      assert e(ms[|ms| - 1]) == d(s[|s| - 1]);
      AssignAllMap(init, f, e, d);
    }
  }

  /** A key is present exactly when some element assigns it, and it holds the
      value of the last element that does. */
  lemma AssignAllLastWins<T, K, V>(s: seq<T>, entry: T -> Option<(K, V)>, k: K)
    ensures k in AssignAll(s, entry) <==> exists i :: 0 <= i < |s| && AssignsKey(entry, s[i], k)
    ensures k in AssignAll(s, entry) ==>
      exists i :: 0 <= i < |s| && AssignsKey(entry, s[i], k) && AssignAll(s, entry)[k] == entry(s[i]).value.1 &&
        forall j :: i < j < |s| ==> !AssignsKey(entry, s[j], k)
  {
    AssignAllHasKey(s, entry, k);
    AssignAllLastValue(s, entry, k);
  }

  lemma {:induction false} AssignAllHasKey<T, K, V>(s: seq<T>, entry: T -> Option<(K, V)>, k: K)
    ensures k in AssignAll(s, entry) <==> exists i :: 0 <= i < |s| && AssignsKey(entry, s[i], k)
    decreases |s|
  {
    if s != [] {
      var n := |s|;
      var init, last := s[..n - 1], s[n - 1];
      AssignAllHasKey(init, entry, k);
      AssignAllStep(s, entry, k);
      if !AssignsKey(entry, last, k) && k in AssignAll(init, entry) {
        var i :| 0 <= i < n - 1 && AssignsKey(entry, init[i], k);
        assert s[i] == init[i];
      } else if !AssignsKey(entry, last, k) {
        forall i | 0 <= i < n - 1
          ensures !AssignsKey(entry, s[i], k)
        {
          assert s[i] == init[i];
        }
      }
    }
  }

  lemma {:induction false} AssignAllLastValue<T, K, V>(s: seq<T>, entry: T -> Option<(K, V)>, k: K)
    ensures k in AssignAll(s, entry) ==>
      exists i :: 0 <= i < |s| && AssignsKey(entry, s[i], k) && AssignAll(s, entry)[k] == entry(s[i]).value.1 &&
        forall j :: i < j < |s| ==> !AssignsKey(entry, s[j], k)
    decreases |s|
  {
    if s != [] {
      var n := |s|;
      var init, last := s[..n - 1], s[n - 1];
      AssignAllLastValue(init, entry, k);
      AssignAllStep(s, entry, k);
      if AssignsKey(entry, last, k) {
        assert AssignsKey(entry, s[n - 1], k);
      } else if k in AssignAll(init, entry) {
        var i :| 0 <= i < n - 1 && AssignsKey(entry, init[i], k) && AssignAll(init, entry)[k] == entry(init[i]).value.1 &&
          forall j :: i < j < n - 1 ==> !AssignsKey(entry, init[j], k);
        assert forall j :: i < j < n - 1 ==> s[j] == init[j];
        assert AssignsKey(entry, s[i], k);
      }
    }
  }

  /** When `s[i]` passes and nothing after it does, it is the last element kept. */
  lemma {:induction false} FilterLast<T>(s: seq<T>, p: T -> bool, i: int)
    requires 0 <= i < |s| && p(s[i])
    requires forall k :: i < k < |s| ==> !p(s[k])
    ensures var f := Filter(s, p); f != [] && f[|f| - 1] == s[i]
    decreases |s|
  {
    var init, last := s[..|s| - 1], s[|s| - 1];
    assert s == init + [last];
    FilterAppend(init, [last], p);
    assert Filter([last], p) == if p(last) then [last] else [];
    if i < |s| - 1 {
      assert init[i] == s[i];
      FilterLast(init, p, i);
    }
  }

  /** Removing position `i` keeps the elements before it and shifts the later ones down. */
  lemma RemoveAtShifts<T>(s: seq<T>, i: int)
    requires 0 <= i < |s|
    ensures var d := s[..i] + s[i + 1..];
      |d| == |s| - 1 &&
      (forall k :: 0 <= k < i ==> d[k] == s[k]) &&
      (forall k :: i <= k < |d| ==> d[k] == s[k + 1])
  {
  }

  /** One more element either assigns the key or leaves it as it was. */
  lemma AssignAllStep<T, K, V>(s: seq<T>, entry: T -> Option<(K, V)>, k: K)
    requires s != []
    ensures var init, last := s[..|s| - 1], s[|s| - 1];
      (k in AssignAll(s, entry) <==> AssignsKey(entry, last, k) || k in AssignAll(init, entry)) &&
      (AssignsKey(entry, last, k) ==> AssignAll(s, entry)[k] == entry(last).value.1) &&
      (!AssignsKey(entry, last, k) && k in AssignAll(init, entry) ==> AssignAll(s, entry)[k] == AssignAll(init, entry)[k])
  {
  }

  /** The elements whose mark is false: what is left once the marked ones are removed. */
  function Unmarked<T>(x: seq<T>, marks: seq<bool>): (r: seq<T>)
    requires |x| == |marks|
    decreases |x|
  {
    if x == [] then []
    else Unmarked(x[..|x| - 1], marks[..|marks| - 1]) + (if marks[|marks| - 1] then [] else [x[|x| - 1]])
  }

  lemma {:induction false} UnmarkedAppend<T>(a: seq<T>, ma: seq<bool>, b: seq<T>, mb: seq<bool>)
    requires |a| == |ma| && |b| == |mb|
    ensures Unmarked(a + b, ma + mb) == Unmarked(a, ma) + Unmarked(b, mb)
    decreases |b|
  {
    if b == [] {
      assert a + b == a && ma + mb == ma;
    } else {
      var b0, mb0 := b[..|b| - 1], mb[..|mb| - 1];
      UnmarkedAppend(a, ma, b0, mb0);
      assert (a + b)[..|a + b| - 1] == a + b0;
      assert (ma + mb)[..|ma + mb| - 1] == ma + mb0;
    }
  }

  /** Every marked element is `f` of the element right after it. */
  predicate MarkedBefore<T(==)>(x: seq<T>, marks: seq<bool>, f: T -> T) {
    |x| == |marks| &&
    forall k :: 0 <= k < |x| && marks[k] ==> k + 1 < |x| && x[k] == f(x[k + 1])
  }

  lemma MarkedBeforeAppend<T>(a: seq<T>, ma: seq<bool>, b: seq<T>, mb: seq<bool>, f: T -> T)
    requires MarkedBefore(a, ma, f) && MarkedBefore(b, mb, f)
    ensures MarkedBefore(a + b, ma + mb, f)
  {
    var x, m := a + b, ma + mb;
    forall k | 0 <= k < |x| && m[k]
      ensures k + 1 < |x| && x[k] == f(x[k + 1])
    {
      if k < |a| {
        assert m[k] == ma[k] && x[k] == a[k] && x[k + 1] == a[k + 1];
      } else {
        assert m[k] == mb[k - |a|] && x[k] == b[k - |a|] && x[k + 1] == b[k + 1 - |a|];
      }
    }
  }
}
