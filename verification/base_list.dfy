/** `BaseList`: a list with strict-by-default filtering and lookup.

    The caller's predicate may raise; the model gives it three outcomes per
    item. A `BaseList` is a `seq<T>` and every operation returns a new one,
    leaving its input untouched. */
module BaseList {

  import opened Wrappers

  /** What the predicate does for one item: truthy, falsy, or raises. */
  datatype Verdict = Yes | No | Raises(error: Error)

  /** The class name used in the `require` error message. */
  const ClassName: string := "BaseList"

  /** The plain reference filter: the items for which `keep` holds, in order. */
  function Filter<T>(xs: seq<T>, keep: T -> bool): (r: seq<T>)
    ensures |r| <= |xs|
    ensures forall i :: 0 <= i < |r| ==> keep(r[i])
    decreases |xs|
  {
    if xs == [] then []
    else (if keep(xs[0]) then [xs[0]] else []) + Filter(xs[1..], keep)
  }

  /** `a` is `b` with some items deleted, the rest kept in order. */
  predicate IsSubsequence<T(==)>(a: seq<T>, b: seq<T>)
    decreases |b|
  {
    if a == [] then true
    else if b == [] then false
    else (a[0] == b[0] && IsSubsequence(a[1..], b[1..])) || IsSubsequence(a, b[1..])
  }

  /** Some item's predicate raises. */
  predicate AnyRaises<T>(xs: seq<T>, p: T -> Verdict) {
    exists i :: 0 <= i < |xs| && p(xs[i]).Raises?
  }

  /** `where(predicate, strict)`: the items whose predicate is truthy, in
      order. With `strict` the first raising predicate's error propagates;
      without it a raising item is skipped. */
  function Where<T>(xs: seq<T>, p: T -> Verdict, strict: bool): (r: Result<seq<T>>)
    ensures !strict ==> r.Ok?
    ensures r.Ok? ==> r.value == Filter(xs, x => p(x) == Yes)
    ensures r.Err? <==> strict && AnyRaises(xs, p)
    ensures r.Err? ==> exists i :: 0 <= i < |xs| && p(xs[i]) == Raises(r.error)
                                   && forall j :: 0 <= j < i ==> !p(xs[j]).Raises?
    decreases |xs|
  {
    if xs == [] then Ok([])
    else
      var head := p(xs[0]);
      if head.Raises? && strict then Err(head.error)
      else
        match Where(xs[1..], p, strict)
        case Err(e) =>
          assert forall j :: 1 <= j < |xs| ==> xs[j] == xs[1..][j - 1];
          Err(e)
        case Ok(rest) =>
          assert forall j :: 1 <= j < |xs| ==> xs[j] == xs[1..][j - 1];
          Ok((if head == Yes then [xs[0]] else []) + rest)
  }

  /** `first(predicate, strict)`: the earliest item whose predicate is
      truthy, or `None`. */
  function First<T>(xs: seq<T>, p: T -> Verdict, strict: bool): (r: Result<Option<T>>)
    ensures r.Err? ==> strict
    ensures r.Ok? && r.value.Some? ==>
      exists i :: 0 <= i < |xs| && xs[i] == r.value.value && p(xs[i]) == Yes
                  && forall j :: 0 <= j < i ==> p(xs[j]) != Yes
    ensures r == Ok(None) ==> forall i :: 0 <= i < |xs| ==> p(xs[i]) != Yes
    ensures r == Ok(None) && strict ==> !AnyRaises(xs, p)
    ensures r.Err? ==>
      exists i :: 0 <= i < |xs| && p(xs[i]) == Raises(r.error)
                  && forall j :: 0 <= j < i ==> p(xs[j]) == No
    ensures strict ==>
      ((exists i :: 0 <= i < |xs| && p(xs[i]).Raises? && forall j :: 0 <= j < i ==> p(xs[j]) == No)
       ==> r.Err?)
    decreases |xs|
  {
    if xs == [] then Ok(None)
    else
      match p(xs[0])
      case Yes => Ok(Some(xs[0]))
      case Raises(e) =>
        if strict then Err(e)
        else
          var r := First(xs[1..], p, strict);
          assert forall j :: 1 <= j < |xs| ==> xs[j] == xs[1..][j - 1];
          r
      case No =>
        var r := First(xs[1..], p, strict);
        assert forall j :: 1 <= j < |xs| ==> xs[j] == xs[1..][j - 1];
        r
  }

  /** `first` stops at the earliest match: items before it that the
      predicate rejects, or on which it raises without `strict`, are
      skipped, and anything after it is never looked at. */
  lemma {:induction false} FirstStopsAtMatch<T>(xs: seq<T>, p: T -> Verdict, strict: bool, k: nat)
    requires k < |xs| && p(xs[k]) == Yes
    requires forall j :: 0 <= j < k ==> p(xs[j]) == No || (!strict && p(xs[j]).Raises?)
    ensures First(xs, p, strict) == Ok(Some(xs[k]))
    decreases k
  {
    if k > 0 {
      assert forall j :: 0 <= j < k - 1 ==> xs[1..][j] == xs[j + 1];
      FirstStopsAtMatch(xs[1..], p, strict, k - 1);
    }
  }

  /** `require(predicate, strict)`: like `first`, but no match is a
      `KeyError`. */
  function Require<T>(xs: seq<T>, p: T -> Verdict, strict: bool): (r: Result<T>)
    ensures r.Ok? <==> First(xs, p, strict).Ok? && First(xs, p, strict).value.Some?
    ensures r.Ok? ==> r.value in xs && p(r.value) == Yes
    ensures First(xs, p, strict) == Ok(None) ==>
      r == Err(KeyError(ClassName + ": no item matched predicate"))
    ensures First(xs, p, strict).Err? ==> r == Err(First(xs, p, strict).error)
  {
    match First(xs, p, strict)
    case Err(e) => Err(e)
    case Ok(None) => Err(KeyError(ClassName + ": no item matched predicate"))
    case Ok(Some(x)) => Ok(x)
  }

  // ---------------------------------------------------------------------------
  // Lemmas
  // ---------------------------------------------------------------------------

  /** The filter keeps an item of the input exactly when `keep` holds. */
  lemma {:induction false} FilterMembership<T>(xs: seq<T>, keep: T -> bool, x: T)
    ensures x in Filter(xs, keep) <==> x in xs && keep(x)
    decreases |xs|
  {
    if xs != [] {
      FilterMembership(xs[1..], keep, x);
      assert x in xs <==> x == xs[0] || x in xs[1..];
    }
  }

  /** Filtering keeps the input's order: the result is a subsequence. */
  lemma {:induction false} FilterIsSubsequence<T>(xs: seq<T>, keep: T -> bool)
    ensures IsSubsequence(Filter(xs, keep), xs)
    decreases |xs|
  {
    if xs != [] {
      var rest := Filter(xs[1..], keep);
      FilterIsSubsequence(xs[1..], keep);
      if keep(xs[0]) {
        assert Filter(xs, keep) == [xs[0]] + rest;
        assert ([xs[0]] + rest)[1..] == rest;
      } else {
        assert Filter(xs, keep) == rest;
      }
    }
  }

  /** Two predicates that agree on every item filter alike. */
  lemma {:induction false} FilterCongruent<T>(xs: seq<T>, p: T -> bool, q: T -> bool)
    requires forall i :: 0 <= i < |xs| ==> p(xs[i]) == q(xs[i])
    ensures Filter(xs, p) == Filter(xs, q)
    decreases |xs|
  {
    if xs != [] {
      assert p(xs[0]) == q(xs[0]);
      assert forall i :: 0 <= i < |xs[1..]| ==> xs[1..][i] == xs[i + 1];
      FilterCongruent(xs[1..], p, q);
    }
  }

  /** A filter that keeps everything returns the list itself. */
  lemma {:induction false} FilterAll<T>(xs: seq<T>, keep: T -> bool)
    requires forall i :: 0 <= i < |xs| ==> keep(xs[i])
    ensures Filter(xs, keep) == xs
    decreases |xs|
  {
    if xs != [] {
      assert keep(xs[0]);
      assert forall i :: 0 <= i < |xs[1..]| ==> xs[1..][i] == xs[i + 1];
      FilterAll(xs[1..], keep);
    }
  }

  /** A filter that keeps nothing returns the empty list. */
  lemma {:induction false} FilterNone<T>(xs: seq<T>, keep: T -> bool)
    requires forall i :: 0 <= i < |xs| ==> !keep(xs[i])
    ensures Filter(xs, keep) == []
    decreases |xs|
  {
    if xs != [] {
      assert !keep(xs[0]);
      assert forall i :: 0 <= i < |xs[1..]| ==> xs[1..][i] == xs[i + 1];
      FilterNone(xs[1..], keep);
    }
  }

  /** A filter that keeps exactly the item at index `k` returns that item. */
  lemma {:induction false} FilterSingle<T>(xs: seq<T>, keep: T -> bool, k: nat)
    requires k < |xs|
    requires forall i :: 0 <= i < |xs| ==> (keep(xs[i]) <==> i == k)
    ensures Filter(xs, keep) == [xs[k]]
    decreases |xs|
  {
    assert forall i :: 0 <= i < |xs[1..]| ==> xs[1..][i] == xs[i + 1];
    if k == 0 {
      FilterNone(xs[1..], keep);
    } else {
      assert !keep(xs[0]);
      FilterSingle(xs[1..], keep, k - 1);
    }
  }

  /** Filtering twice is filtering once by both predicates. */
  lemma {:induction false} FilterFilter<T>(xs: seq<T>, p: T -> bool, q: T -> bool, both: T -> bool)
    requires forall i :: 0 <= i < |xs| ==> both(xs[i]) == (p(xs[i]) && q(xs[i]))
    ensures Filter(Filter(xs, p), q) == Filter(xs, both)
    decreases |xs|
  {
    if xs != [] {
      assert forall i :: 0 <= i < |xs[1..]| ==> xs[1..][i] == xs[i + 1];
      FilterFilter(xs[1..], p, q, both);
      var rest := Filter(xs[1..], p);
      if p(xs[0]) {
        assert Filter(xs, p) == [xs[0]] + rest;
        assert ([xs[0]] + rest)[1..] == rest;
        assert Filter([xs[0]] + rest, q) == (if q(xs[0]) then [xs[0]] else []) + Filter(rest, q);
      } else {
        assert Filter(xs, p) == rest;
      }
    }
  }

  /** With a predicate that never raises, `where` is the plain filter,
      whatever the strictness. */
  lemma {:induction false} WhereTotal<T>(xs: seq<T>, p: T -> Verdict, strict: bool, keep: T -> bool)
    requires forall i :: 0 <= i < |xs| ==> p(xs[i]) == (if keep(xs[i]) then Yes else No)
    ensures Where(xs, p, strict) == Ok(Filter(xs, keep))
    decreases |xs|
  {
    if xs != [] {
      assert forall i :: 0 <= i < |xs[1..]| ==> xs[1..][i] == xs[i + 1];
      WhereTotal(xs[1..], p, strict, keep);
    }
  }

  /** Non-strict `first` is the head of non-strict `where`. */
  lemma {:induction false} FirstIsHeadOfWhere<T>(xs: seq<T>, p: T -> Verdict)
    ensures var w := Where(xs, p, false).value;
      First(xs, p, false) == Ok(if w == [] then None else Some(w[0]))
    decreases |xs|
  {
    if xs != [] {
      FirstIsHeadOfWhere(xs[1..], p);
    }
  }

  /** When strict `where` succeeds, strict `first` succeeds too and returns
      its head: `first` stops at the first match and sees no raise before it. */
  lemma {:induction false} StrictFirstIsHeadOfWhere<T>(xs: seq<T>, p: T -> Verdict)
    requires Where(xs, p, true).Ok?
    ensures var w := Where(xs, p, true).value;
      First(xs, p, true) == Ok(if w == [] then None else Some(w[0]))
    decreases |xs|
  {
    if xs != [] {
      StrictFirstIsHeadOfWhere(xs[1..], p);
    }
  }

  /** `require` agrees with `first` whenever something matches. */
  lemma RequireAgreesWithFirst<T>(xs: seq<T>, p: T -> Verdict, strict: bool, x: T)
    requires First(xs, p, strict) == Ok(Some(x))
    ensures Require(xs, p, strict) == Ok(x)
  {
  }
}
