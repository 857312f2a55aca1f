/**
 * Generic sequence combinators that the extraction strategies and the
 * review pipeline are built from: the optional value every strategy returns,
 * order-preserving filtering, the "first non-absent wins" cascade, in-order
 * de-duplication and the stable "shortest candidate" choice.
 */
module Seqs {

  datatype Option<+T> = None | Some(value: T)

  /** A value, or the error the source would have raised instead. */
  datatype Result<+T, +E> = Ok(value: T) | Failure(error: E)

  /** The cascade step: keep `a` when it is present, otherwise fall back to `b`. */
  function OrElse<T>(a: Option<T>, b: Option<T>): Option<T>
  {
    if a.Some? then a else b
  }

  // ---------------------------------------------------------------------
  // Filtering (a list comprehension with an `if`, or a loop that appends)
  // ---------------------------------------------------------------------

  /** The elements of `s` that satisfy `p`, in their original order. */
  function Filter<T>(s: seq<T>, p: T -> bool): seq<T>
  {
    if s == [] then [] else Filter(s[..|s| - 1], p) + (if p(s[|s| - 1]) then [s[|s| - 1]] else [])
  }

  /** `[f(x) for x in s]`. */
  function Map<T, U>(s: seq<T>, f: T -> U): (r: seq<U>)
    ensures |r| == |s|
    ensures forall i :: 0 <= i < |s| ==> r[i] == f(s[i])
  {
    if s == [] then [] else Map(s[..|s| - 1], f) + [f(s[|s| - 1])]
  }

  /** One more element of `s` extends `Filter(Map(s, f), p)` by at most its image. */
  lemma FilterMapStep<T, U>(s: seq<T>, i: nat, f: T -> U, p: U -> bool)
    requires i < |s|
    ensures Filter(Map(s[..i + 1], f), p) == Filter(Map(s[..i], f), p) + (if p(f(s[i])) then [f(s[i])] else [])
  {
    assert s[..i + 1][..i] == s[..i];
    var m := Map(s[..i + 1], f);
    assert m[..i] == Map(s[..i], f);
  }

  /** The concatenation of a sequence of sequences, in order. */
  function Concat<T>(ss: seq<seq<T>>): seq<T>
  {
    if ss == [] then [] else Concat(ss[..|ss| - 1]) + ss[|ss| - 1]
  }

  /** One more element of `s` appends its image to `Concat(Map(s, f))`. */
  lemma ConcatMapStep<T, U>(s: seq<T>, i: nat, f: T -> seq<U>)
    requires i < |s|
    ensures Concat(Map(s[..i + 1], f)) == Concat(Map(s[..i], f)) + f(s[i])
  {
    assert s[..i + 1][..i] == s[..i];
    var m := Map(s[..i + 1], f);
    assert m[..i] == Map(s[..i], f);
  }

  lemma ConcatMapPrefixEmpty<T, U>(front: seq<U>, s: seq<T>, f: T -> seq<U>)
    ensures front + Concat(Map(s[..0], f)) == front
  {
    assert s[..0] == [];
  }

  /** `a` can be obtained from `b` by deleting elements (order is kept). */
  predicate IsSubsequence<T(==)>(a: seq<T>, b: seq<T>)
  {
    if a == [] then true
    else if b == [] then false
    else if a[|a| - 1] == b[|b| - 1] then IsSubsequence(a[..|a| - 1], b[..|b| - 1])
    else IsSubsequence(a, b[..|b| - 1])
  }

  lemma {:induction false} FilterMembership<T>(s: seq<T>, p: T -> bool, x: T)
    ensures x in Filter(s, p) <==> x in s && p(x)
  {
    if s != [] {
      FilterMembership(s[..|s| - 1], p, x);
      assert s == s[..|s| - 1] + [s[|s| - 1]];
    }
  }

  lemma {:induction false} FilterLength<T>(s: seq<T>, p: T -> bool)
    ensures |Filter(s, p)| <= |s|
  {
    if s != [] {
      FilterLength(s[..|s| - 1], p);
    }
  }

  lemma {:induction false} FilterAppend<T>(a: seq<T>, b: seq<T>, p: T -> bool)
    ensures Filter(a + b, p) == Filter(a, p) + Filter(b, p)
    decreases |b|
  {
    if b == [] {
      assert a + b == a;
    } else {
      var b' := b[..|b| - 1];
      assert (a + b)[..|a + b| - 1] == a + b';
      FilterAppend(a, b', p);
    }
  }

  /** When every element passes, filtering changes nothing. */
  lemma {:induction false} FilterAllPass<T>(s: seq<T>, p: T -> bool)
    requires forall i :: 0 <= i < |s| ==> p(s[i])
    ensures Filter(s, p) == s
  {
    if s != [] {
      FilterAllPass(s[..|s| - 1], p);
    }
  }

  /** Every element of a filtered sequence passes the filter. */
  lemma {:induction false} FilterElementsPass<T>(s: seq<T>, p: T -> bool)
    ensures forall i :: 0 <= i < |Filter(s, p)| ==> p(Filter(s, p)[i])
  {
    if s != [] {
      FilterElementsPass(s[..|s| - 1], p);
    }
  }

  /** Filtering twice with the same predicate is filtering once. */
  lemma FilterIdempotent<T>(s: seq<T>, p: T -> bool)
    ensures Filter(Filter(s, p), p) == Filter(s, p)
  {
    FilterElementsPass(s, p);
    FilterAllPass(Filter(s, p), p);
  }

  lemma {:induction false} FilterIsSubsequence<T>(s: seq<T>, p: T -> bool)
    ensures IsSubsequence(Filter(s, p), s)
  {
    if s != [] {
      var init := s[..|s| - 1];
      FilterIsSubsequence(init, p);
      if !p(s[|s| - 1]) {
        assert Filter(s, p) == Filter(init, p);
        SubsequenceExtend(Filter(init, p), init, s[|s| - 1]);
      }
    }
  }

  /** A subsequence of `b` stays one when `b` grows at its end. */
  lemma {:induction false} SubsequenceExtend<T>(a: seq<T>, b: seq<T>, x: T)
    requires IsSubsequence(a, b)
    ensures IsSubsequence(a, b + [x])
    decreases |a| + |b|, 1
  {
    var b' := b + [x];
    assert b'[..|b'| - 1] == b;
    if a != [] && a[|a| - 1] == x {
      SubsequenceOfPrefix(a, b);
    }
  }

  /** Dropping the last element of a subsequence leaves a subsequence. */
  lemma {:induction false} SubsequenceOfPrefix<T>(a: seq<T>, b: seq<T>)
    requires a != [] && IsSubsequence(a, b)
    ensures IsSubsequence(a[..|a| - 1], b)
    decreases |a| + |b|, 0
  {
    var a' := a[..|a| - 1];
    if a[|a| - 1] == b[|b| - 1] {
      SubsequenceExtend(a', b[..|b| - 1], b[|b| - 1]);
      assert b[..|b| - 1] + [b[|b| - 1]] == b;
    } else {
      SubsequenceOfPrefix(a, b[..|b| - 1]);
      SubsequenceExtend(a', b[..|b| - 1], b[|b| - 1]);
      assert b[..|b| - 1] + [b[|b| - 1]] == b;
    }
  }

  /** A subsequence is never longer and holds only elements of the original. */
  lemma {:induction false} SubsequenceBounds<T>(a: seq<T>, b: seq<T>)
    requires IsSubsequence(a, b)
    ensures |a| <= |b|
    ensures forall x :: x in a ==> x in b
  {
    if a != [] {
      if a[|a| - 1] == b[|b| - 1] {
        SubsequenceBounds(a[..|a| - 1], b[..|b| - 1]);
        assert a == a[..|a| - 1] + [a[|a| - 1]];
        assert b == b[..|b| - 1] + [b[|b| - 1]];
      } else {
        SubsequenceBounds(a, b[..|b| - 1]);
        assert b == b[..|b| - 1] + [b[|b| - 1]];
      }
    }
  }

  /** The first element of `s` that passes `p`: `find` is the head of `find_all`. */
  function First<T>(s: seq<T>, p: T -> bool): Option<T>
  {
    var all := Filter(s, p);
    if all == [] then None else Some(all[0])
  }

  /** The head of a filtered sequence is the first element that passes. */
  lemma {:induction false} FirstIsEarliest<T>(s: seq<T>, p: T -> bool)
    ensures First(s, p).None? <==> forall i :: 0 <= i < |s| ==> !p(s[i])
    ensures First(s, p).Some? ==>
      exists k :: 0 <= k < |s| && s[k] == First(s, p).value && p(s[k]) &&
        forall i :: 0 <= i < k ==> !p(s[i])
  {
    if s != [] {
      var init := s[..|s| - 1];
      FirstIsEarliest(init, p);
      if Filter(init, p) == [] {
        if p(s[|s| - 1]) {
          assert forall i :: 0 <= i < |s| - 1 ==> !p(s[i]) by {
            forall i | 0 <= i < |s| - 1 ensures !p(s[i]) {
              assert s[i] == init[i];
            }
          }
        } else {
          forall i | 0 <= i < |s| ensures !p(s[i]) {
            if i < |s| - 1 { assert s[i] == init[i]; }
          }
        }
      } else {
        var k :| 0 <= k < |init| && init[k] == First(init, p).value && p(init[k]) &&
          forall i :: 0 <= i < k ==> !p(init[i]);
        assert s[k] == init[k];
        assert forall i :: 0 <= i < k ==> s[i] == init[i];
      }
    }
  }

  /** A filter comes back empty exactly when nothing passes. */
  lemma FilterEmpty<T>(s: seq<T>, p: T -> bool)
    ensures Filter(s, p) == [] <==> forall i :: 0 <= i < |s| ==> !p(s[i])
  {
    FirstIsEarliest(s, p);
  }

  // ---------------------------------------------------------------------
  // "First non-absent wins"
  // ---------------------------------------------------------------------

  /** Index of the first element on which `f` yields a value; `|s|` when there is none. */
  function FirstHit<T, U>(s: seq<T>, f: T -> Option<U>): (k: nat)
    ensures k <= |s|
    ensures k < |s| ==> f(s[k]).Some?
    ensures forall i :: 0 <= i < k ==> f(s[i]).None?
  {
    if s == [] then 0 else if f(s[0]).Some? then 0 else 1 + FirstHit(s[1..], f)
  }

  /**
   * The generic strategy loop: try `f` on each element in order and return
   * the first value obtained, or None when every attempt comes back empty.
   */
  function FirstSome<T, U>(s: seq<T>, f: T -> Option<U>): (r: Option<U>)
    ensures r.None? <==> forall i :: 0 <= i < |s| ==> f(s[i]).None?
    ensures r.Some? ==>
      exists k :: 0 <= k < |s| && f(s[k]) == r && forall i :: 0 <= i < k ==> f(s[i]).None?
  {
    var k := FirstHit(s, f);
    if k < |s| then f(s[k]) else None
  }

  /**
   * The strategy loop whose body may also raise: `f` yields None to go on
   * to the next element, a value to return, or an error that ends the loop.
   * The result is the first value or error met, or no value at all.
   */
  function FirstOutcome<T, U, E>(s: seq<T>, f: T -> Option<Result<U, E>>): (r: Result<Option<U>, E>)
    ensures r == Ok(None) <==> forall i :: 0 <= i < |s| ==> f(s[i]).None?
    ensures r.Ok? && r.value.Some? ==>
      exists k :: 0 <= k < |s| && f(s[k]) == Some(Ok(r.value.value)) && forall i :: 0 <= i < k ==> f(s[i]).None?
    ensures r.Failure? ==>
      exists k :: 0 <= k < |s| && f(s[k]) == Some(Failure(r.error)) && forall i :: 0 <= i < k ==> f(s[i]).None?
  {
    var hit := FirstSome(s, f);
    if hit.None? then Ok(None)
    else if hit.value.Ok? then Ok(Some(hit.value.value))
    else Failure(hit.value.error)
  }

  // ---------------------------------------------------------------------
  // In-order de-duplication (`if x not in out: out.append(x)`)
  // ---------------------------------------------------------------------

  predicate NoDuplicates<T(==)>(s: seq<T>)
  {
    forall i, j :: 0 <= i < j < |s| ==> s[i] != s[j]
  }

  /** The loop `for x in s: if x not in out: out.append(x)`, as a function. */
  function Dedup<T(==)>(s: seq<T>): seq<T>
  {
    if s == [] then []
    else
      var d := Dedup(s[..|s| - 1]);
      if s[|s| - 1] in d then d else d + [s[|s| - 1]]
  }

  /** One more element: kept when it is new. */
  lemma DedupStep<T>(s: seq<T>, x: T)
    ensures Dedup(s + [x]) == if x in s then Dedup(s) else Dedup(s) + [x]
  {
    assert (s + [x])[..|s|] == s;
    DedupProperties(s);
  }

  /**
   * One step of `for x in s: if p(f(x)) and f(x) not in out: out.append(f(x))`
   * when `out` already de-duplicates `seen` and the earlier kept images.
   */
  lemma DedupFilterMapStep<T, U>(seen: seq<U>, s: seq<T>, j: nat, f: T -> U, p: U -> bool, out: seq<U>)
    requires j < |s|
    requires out == Dedup(seen + Filter(Map(s[..j], f), p))
    ensures Dedup(seen + Filter(Map(s[..j + 1], f), p)) ==
      if p(f(s[j])) && f(s[j]) !in out then out + [f(s[j])] else out
  {
    FilterMapStep(s, j, f, p);
    var prefix := seen + Filter(Map(s[..j], f), p);
    if p(f(s[j])) {
      assert seen + Filter(Map(s[..j + 1], f), p) == prefix + [f(s[j])];
      DedupStep(prefix, f(s[j]));
      DedupProperties(prefix);
    } else {
      assert seen + Filter(Map(s[..j + 1], f), p) == prefix;
    }
  }

  /** Index of the first occurrence of `x` in `s`. */
  function FirstIndex<T(==)>(s: seq<T>, x: T): (i: nat)
    requires x in s
    ensures i < |s| && s[i] == x && x !in s[..i]
  {
    if s[0] == x then 0 else 1 + FirstIndex(s[1..], x)
  }

  lemma {:induction false} DedupProperties<T>(s: seq<T>)
    ensures NoDuplicates(Dedup(s))
    ensures forall x :: x in Dedup(s) <==> x in s
  {
    if s != [] {
      var init := s[..|s| - 1];
      DedupProperties(init);
      assert s == init + [s[|s| - 1]];
    }
  }

  /**
   * Each kept element sits at its first occurrence: the first occurrences of
   * the kept elements in `s` come in the same order as the kept elements.
   */
  lemma {:induction false} DedupKeepsFirstOccurrenceOrder<T>(s: seq<T>)
    ensures forall x :: x in Dedup(s) ==> x in s
    ensures forall j, k :: 0 <= j < k < |Dedup(s)| ==>
      FirstIndex(s, Dedup(s)[j]) < FirstIndex(s, Dedup(s)[k])
  {
    DedupProperties(s);
    if s != [] {
      var init := s[..|s| - 1];
      var x := s[|s| - 1];
      var d := Dedup(init);
      DedupKeepsFirstOccurrenceOrder(init);
      DedupProperties(init);
      assert s == init + [x];
      forall y | y in init ensures FirstIndex(s, y) == FirstIndex(init, y) {
        FirstIndexOfExtension(init, x, y);
      }
      if x !in d {
        assert x !in init;
        forall j, k | 0 <= j < k < |Dedup(s)|
          ensures FirstIndex(s, Dedup(s)[j]) < FirstIndex(s, Dedup(s)[k])
        {
          if k == |d| {
            assert Dedup(s)[j] == d[j];
            assert FirstIndex(s, x) == |init| by {
              assert s[|init|] == x;
              assert x !in s[..|init|];
            }
          } else {
            assert Dedup(s)[j] == d[j] && Dedup(s)[k] == d[k];
          }
        }
      }
    }
  }

  lemma {:induction false} FirstIndexOfExtension<T>(s: seq<T>, x: T, y: T)
    requires y in s
    ensures FirstIndex(s + [x], y) == FirstIndex(s, y)
  {
    if s[0] != y {
      assert (s + [x])[1..] == s[1..] + [x];
      FirstIndexOfExtension(s[1..], x, y);
    }
  }

  /**
   * De-duplicating a concatenation starts with the de-duplicated first part;
   * what follows comes from the second part and never from the first.
   */
  lemma {:induction false} DedupAppend<T>(a: seq<T>, b: seq<T>)
    ensures |Dedup(a)| <= |Dedup(a + b)|
    ensures Dedup(a + b)[..|Dedup(a)|] == Dedup(a)
    ensures forall i :: |Dedup(a)| <= i < |Dedup(a + b)| ==>
      Dedup(a + b)[i] in b && Dedup(a + b)[i] !in a
    decreases |b|
  {
    if b == [] {
      assert a + b == a;
    } else {
      var b' := b[..|b| - 1];
      var x := b[|b| - 1];
      assert (a + b)[..|a + b| - 1] == a + b';
      assert a + b == (a + b') + [x];
      DedupAppend(a, b');
      DedupProperties(a + b');
      DedupProperties(a);
      var d := Dedup(a + b');
      if x !in d {
        assert x !in a + b';
        assert (d + [x])[..|Dedup(a)|] == d[..|Dedup(a)|];
        forall i | |Dedup(a)| <= i < |Dedup(a + b)|
          ensures Dedup(a + b)[i] in b && Dedup(a + b)[i] !in a
        {
          if i < |d| {
            assert Dedup(a + b)[i] == d[i];
            assert d[i] in b';
          }
        }
      } else {
        forall i | |Dedup(a)| <= i < |Dedup(a + b)|
          ensures Dedup(a + b)[i] in b && Dedup(a + b)[i] !in a
        {
          assert d[i] in b';
        }
      }
    }
  }

  // ---------------------------------------------------------------------
  // `candidates.sort(key=len); candidates[0]`
  // ---------------------------------------------------------------------

  /** Index of the first candidate of least length. */
  function ShortestIndex(s: seq<string>): (k: nat)
    requires |s| > 0
    ensures k < |s|
    ensures forall i :: 0 <= i < |s| ==> |s[k]| <= |s[i]|
    ensures forall i :: 0 <= i < k ==> |s[i]| > |s[k]|
  {
    if |s| == 1 then 0
    else
      var k := ShortestIndex(s[..|s| - 1]);
      if |s[|s| - 1]| < |s[k]| then |s| - 1 else k
  }

  /** Inserts `x` after every element that is not longer than it (stable insertion). */
  function InsertByLength(sorted: seq<string>, x: string): seq<string>
  {
    if sorted == [] then [x]
    else if |x| < |sorted[0]| then [x] + sorted
    else [sorted[0]] + InsertByLength(sorted[1..], x)
  }

  /** Python's stable `sort(key=len)`, as insertion sort in original order. */
  function SortByLength(s: seq<string>): seq<string>
  {
    if s == [] then [] else InsertByLength(SortByLength(s[..|s| - 1]), s[|s| - 1])
  }

  lemma {:induction false} InsertByLengthShape(sorted: seq<string>, x: string)
    ensures multiset(InsertByLength(sorted, x)) == multiset(sorted) + multiset{x}
    ensures InsertByLength(sorted, x)[0] == if sorted == [] || |x| < |sorted[0]| then x else sorted[0]
  {
    if sorted != [] && |x| >= |sorted[0]| {
      InsertByLengthShape(sorted[1..], x);
      assert sorted == [sorted[0]] + sorted[1..];
    }
  }

  lemma {:induction false} SortByLengthIsPermutation(s: seq<string>)
    ensures multiset(SortByLength(s)) == multiset(s)
  {
    if s != [] {
      SortByLengthIsPermutation(s[..|s| - 1]);
      InsertByLengthShape(SortByLength(s[..|s| - 1]), s[|s| - 1]);
      assert s == s[..|s| - 1] + [s[|s| - 1]];
    }
  }

  /** Any index with the two properties of ShortestIndex is ShortestIndex. */
  lemma ShortestIndexUnique(s: seq<string>, k: nat)
    requires k < |s|
    requires forall i :: 0 <= i < |s| ==> |s[k]| <= |s[i]|
    requires forall i :: 0 <= i < k ==> |s[i]| > |s[k]|
    ensures k == ShortestIndex(s)
  {
  }

  /**
   * The head of the stably sorted candidates is the first candidate of least
   * length: ties go to the one that came first.
   */
  lemma {:induction false} SortedHeadIsFirstShortest(s: seq<string>)
    requires |s| > 0
    ensures |SortByLength(s)| == |s|
    ensures SortByLength(s)[0] == s[ShortestIndex(s)]
  {
    SortByLengthIsPermutation(s);
    assert |SortByLength(s)| == |multiset(SortByLength(s))| == |multiset(s)| == |s|;
    var init := s[..|s| - 1];
    var x := s[|s| - 1];
    if init == [] {
      InsertByLengthShape([], x);
    } else {
      SortedHeadIsFirstShortest(init);
      var k := ShortestIndex(init);
      InsertByLengthShape(SortByLength(init), x);
      assert s[k] == init[k];
    }
  }

  // ---------------------------------------------------------------------
  // A loop that skips the elements whose attempt raises
  // ---------------------------------------------------------------------

  /** The values of the attempts that succeed, in the order of `s`. */
  function Successes<T, U, E>(s: seq<T>, f: T -> Result<U, E>): seq<U>
  {
    if s == [] then []
    else Successes(s[..|s| - 1], f) + (if f(s[|s| - 1]).Ok? then [f(s[|s| - 1]).value] else [])
  }

  lemma SuccessesStep<T, U, E>(s: seq<T>, i: nat, f: T -> Result<U, E>)
    requires i < |s|
    ensures Successes(s[..i + 1], f) == Successes(s[..i], f) + (if f(s[i]).Ok? then [f(s[i]).value] else [])
  {
    assert s[..i + 1][..i] == s[..i];
  }

  lemma {:induction false} SuccessesAppend<T, U, E>(a: seq<T>, b: seq<T>, f: T -> Result<U, E>)
    ensures Successes(a + b, f) == Successes(a, f) + Successes(b, f)
    decreases |b|
  {
    if b == [] {
      assert a + b == a;
    } else {
      var b' := b[..|b| - 1];
      assert (a + b)[..|a + b| - 1] == a + b';
      SuccessesAppend(a, b', f);
    }
  }

  lemma {:induction false} SuccessesCount<T, U, E>(s: seq<T>, f: T -> Result<U, E>)
    ensures |Successes(s, f)| <= |s|
    ensures |Successes(s, f)| == |s| <==> forall i :: 0 <= i < |s| ==> f(s[i]).Ok?
  {
    if s != [] {
      var init := s[..|s| - 1];
      SuccessesCount(init, f);
      if forall i :: 0 <= i < |init| ==> f(init[i]).Ok? {
        assert forall i :: 0 <= i < |init| ==> init[i] == s[i];
      } else {
        var j :| 0 <= j < |init| && !f(init[j]).Ok?;
        assert init[j] == s[j];
      }
    }
  }

  lemma {:induction false} SuccessesMembership<T, U, E>(s: seq<T>, f: T -> Result<U, E>, y: U)
    ensures y in Successes(s, f) <==> exists i :: 0 <= i < |s| && f(s[i]) == Ok(y)
  {
    if s != [] {
      var init := s[..|s| - 1];
      SuccessesMembership(init, f, y);
      if y in Successes(init, f) {
        var i :| 0 <= i < |init| && f(init[i]) == Ok(y);
        assert s[i] == init[i];
      }
      if exists i :: 0 <= i < |s| && f(s[i]) == Ok(y) {
        var i :| 0 <= i < |s| && f(s[i]) == Ok(y);
        if i < |init| {
          assert s[i] == init[i];
        }
      }
    }
  }
}
