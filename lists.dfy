/**
 * The list operations the components build from `Array.prototype.filter`
 * and spread: keeping the elements a test accepts, dropping one value or
 * one index, and toggling a value's membership.
 */
module Lists {

  /** `s.filter(keep)`. */
  function Filter<T(!new)>(s: seq<T>, keep: T -> bool): (r: seq<T>)
    ensures |r| <= |s|
    ensures forall x :: x in r <==> x in s && keep(x)
  {
    if |s| == 0 then []
    else (if keep(s[0]) then [s[0]] else []) + Filter(s[1..], keep)
  }

  /** Filtering a concatenation filters each part and keeps them in order,
   *  so the result is an order-preserving sublist. */
  lemma {:induction false} FilterAppend<T(!new)>(a: seq<T>, b: seq<T>, keep: T -> bool)
    ensures Filter(a + b, keep) == Filter(a, keep) + Filter(b, keep)
  {
    if |a| > 0 {
      var head := if keep(a[0]) then [a[0]] else [];
      assert (a + b)[0] == a[0] && (a + b)[1..] == a[1..] + b;
      assert Filter(a + b, keep) == head + Filter(a[1..] + b, keep);
      FilterAppend(a[1..], b, keep);
      assert Filter(a, keep) == head + Filter(a[1..], keep);
    } else {
      assert a + b == b;
    }
  }

  /** When the test accepts every element, nothing is dropped. */
  lemma {:induction false} FilterKeepsAll<T(!new)>(s: seq<T>, keep: T -> bool)
    requires forall i :: 0 <= i < |s| ==> keep(s[i])
    ensures Filter(s, keep) == s
  {
    if |s| > 0 {
      FilterKeepsAll(s[1..], keep);
      assert [s[0]] + s[1..] == s;
    }
  }

  /** No value occurs twice. */
  predicate Distinct<T(==)>(items: seq<T>)
  {
    forall i, j :: 0 <= i < j < |items| ==> items[i] != items[j]
  }

  lemma DistinctCons<T>(x: T, s: seq<T>)
    ensures Distinct([x] + s) <==> x !in s && Distinct(s)
  {
    var t := [x] + s;
    assert forall i :: 0 < i < |t| ==> t[i] == s[i - 1];
    if x !in s && Distinct(s) {
      forall i, j | 0 <= i < j < |t| ensures t[i] != t[j] {
        if i > 0 {
          assert t[i] == s[i - 1] && t[j] == s[j - 1];
        }
      }
    }
    if Distinct(t) {
      forall i, j | 0 <= i < j < |s| ensures s[i] != s[j] {
        assert t[i + 1] == s[i] && t[j + 1] == s[j];
      }
      forall k | 0 <= k < |s| ensures s[k] != x {
        assert t[0] != t[k + 1];
      }
    }
  }

  /** Appending a value the list lacks keeps it free of repeats. */
  lemma DistinctAppend<T>(s: seq<T>, x: T)
    requires Distinct(s) && x !in s
    ensures Distinct(s + [x])
  {
    var t := s + [x];
    forall i, j | 0 <= i < j < |t| ensures t[i] != t[j] {
      if j == |s| {
        assert t[i] == s[i];
      } else {
        assert t[i] == s[i] && t[j] == s[j];
      }
    }
  }

  /** A sublist chosen by a test keeps a list free of repeats. */
  lemma {:induction false} FilterDistinct<T(!new)>(s: seq<T>, keep: T -> bool)
    requires Distinct(s)
    ensures Distinct(Filter(s, keep))
  {
    if |s| > 0 {
      assert [s[0]] + s[1..] == s;
      DistinctCons(s[0], s[1..]);
      FilterDistinct(s[1..], keep);
      if keep(s[0]) {
        DistinctCons(s[0], Filter(s[1..], keep));
      }
    }
  }

  /** `s.filter(y => y !== x)`. */
  function Without<T(==,!new)>(s: seq<T>, x: T): (r: seq<T>)
    ensures x !in r
    ensures forall y :: y != x ==> (y in r <==> y in s)
  {
    Filter(s, y => y != x)
  }

  /** Dropping a value keeps a list free of repeats. */
  lemma WithoutDistinct<T(!new)>(s: seq<T>, x: T)
    requires Distinct(s)
    ensures Distinct(Without(s, x))
  {
    FilterDistinct(s, y => y != x);
  }

  /** Dropping a value the list lacks changes nothing. */
  lemma WithoutAbsent<T(!new)>(s: seq<T>, x: T)
    requires x !in s
    ensures Without(s, x) == s
  {
    FilterKeepsAll(s, y => y != x);
  }

  /** Dropping the value just appended gives back the list it was appended
   *  to, when that list lacked it. */
  lemma WithoutAppended<T(!new)>(s: seq<T>, x: T)
    requires x !in s
    ensures Without(s + [x], x) == s
  {
    FilterAppend(s, [x], y => y != x);
    WithoutAbsent(s, x);
  }

  /** `s.includes(x) ? s.filter(y => y !== x) : [...s, x]`: every
   *  occurrence of a present value goes, an absent one is appended. */
  function Toggle<T(==,!new)>(s: seq<T>, x: T): (r: seq<T>)
    ensures x in s ==> r == Without(s, x)
    ensures x !in s ==> r == s + [x]
    ensures x in r <==> x !in s
    ensures forall y :: y != x ==> (y in r <==> y in s)
  {
    if x in s then Without(s, x) else s + [x]
  }

  /** Toggling a value the list lacks twice gives the list back. */
  lemma ToggleTwice<T(!new)>(s: seq<T>, x: T)
    requires x !in s
    ensures Toggle(Toggle(s, x), x) == s
  {
    WithoutAppended(s, x);
  }

  /** `s.filter((_, i) => i !== index)`, scanning from position `k`. */
  function DropIndexFrom<T>(s: seq<T>, index: int, k: nat): (r: seq<T>)
    decreases |s|
  {
    if |s| == 0 then []
    else (if k == index then [] else [s[0]]) + DropIndexFrom(s[1..], index, k + 1)
  }

  /** `s.filter((_, i) => i !== index)`: the entry at `index` goes, the
   *  others keep their order; an index outside the list changes nothing. */
  function RemoveAt<T>(s: seq<T>, index: int): (r: seq<T>)
    ensures 0 <= index < |s| ==> r == s[..index] + s[index + 1..]
    ensures !(0 <= index < |s|) ==> r == s
  {
    DropIndexCorrect(s, index, 0);
    DropIndexFrom(s, index, 0)
  }

  lemma {:induction false} DropIndexCorrect<T>(s: seq<T>, index: int, k: nat)
    ensures k <= index < k + |s| ==> DropIndexFrom(s, index, k) == s[..index - k] + s[index - k + 1..]
    ensures !(k <= index < k + |s|) ==> DropIndexFrom(s, index, k) == s
    decreases |s|
  {
    if |s| > 0 {
      DropIndexCorrect(s[1..], index, k + 1);
      if k == index {
        assert s[..0] + s[1..] == s[1..];
      } else if k < index < k + |s| {
        assert s[..index - k] == [s[0]] + s[1..][..index - k - 1];
        assert s[index - k + 1..] == s[1..][index - k..];
      } else {
        assert [s[0]] + s[1..] == s;
      }
    }
  }

}
