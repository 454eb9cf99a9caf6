/** `Array.prototype.sort` with a comparator. JavaScript's sort is stable, so for a
    comparator that is a total preorder its result is the one stable sorted
    permutation of the input; `SortBy` computes that permutation by insertion
    sort, with `le(a, b)` standing for `compare(a, b) <= 0`. */
module Sorting {
  import opened Base

  /** `le` orders any two values and is transitive. */
  ghost predicate TotalPreorder<T(!new)>(le: (T, T) -> bool)
  {
    && (forall a, b :: le(a, b) || le(b, a))
    && (forall a, b, c :: le(a, b) && le(b, c) ==> le(a, c))
  }

  ghost predicate Sorted<T>(s: seq<T>, le: (T, T) -> bool)
  {
    forall i, j :: 0 <= i < j < |s| ==> le(s[i], s[j])
  }

  /** Places `x` before the first element it does not come after. */
  function Insert<T>(x: T, s: seq<T>, le: (T, T) -> bool): (r: seq<T>)
    ensures |r| == |s| + 1
  {
    if s == [] then [x]
    else if le(x, s[0]) then [x] + s
    else [s[0]] + Insert(x, s[1..], le)
  }

  lemma {:induction false} InsertPermutation<T>(x: T, s: seq<T>, le: (T, T) -> bool)
    ensures multiset(Insert(x, s, le)) == multiset(s) + multiset{x}
  {
    if s != [] && !le(x, s[0]) {
      InsertPermutation(x, s[1..], le);
      assert s == [s[0]] + s[1..];
    }
  }

  function SortBy<T>(s: seq<T>, le: (T, T) -> bool): (r: seq<T>)
    ensures |r| == |s|
  {
    if s == [] then [] else Insert(s[0], SortBy(s[1..], le), le)
  }

  /** The sorted copy is a permutation of the input. */
  lemma {:induction false} SortByPermutation<T>(s: seq<T>, le: (T, T) -> bool)
    ensures multiset(SortBy(s, le)) == multiset(s)
  {
    if s != [] {
      SortByPermutation(s[1..], le);
      InsertPermutation(s[0], SortBy(s[1..], le), le);
      assert s == [s[0]] + s[1..];
    }
  }

  lemma {:induction false} InsertSorted<T(!new)>(x: T, s: seq<T>, le: (T, T) -> bool)
    requires TotalPreorder(le) && Sorted(s, le)
    ensures Sorted(Insert(x, s, le), le)
  {
    if s != [] && !le(x, s[0]) {
      InsertSorted(x, s[1..], le);
      var t := Insert(x, s[1..], le);
      InsertPermutation(x, s[1..], le);
      forall k | 0 <= k < |t|
        ensures le(s[0], t[k])
      {
        assert t[k] in multiset(s[1..]) + multiset{x};
        if t[k] != x {
          var j :| 0 <= j < |s[1..]| && s[1..][j] == t[k];
          assert s[j + 1] == t[k];
        }
      }
    }
  }

  /** The sorted copy is in order. */
  lemma {:induction false} SortBySorted<T(!new)>(s: seq<T>, le: (T, T) -> bool)
    requires TotalPreorder(le)
    ensures Sorted(SortBy(s, le), le)
  {
    if s != [] {
      SortBySorted(s[1..], le);
      InsertSorted(s[0], SortBy(s[1..], le), le);
    }
  }

  /** `a` and `b` are tied under `le`: the comparator returns 0 for them. */
  predicate Tied<T>(le: (T, T) -> bool, a: T, b: T)
  {
    le(a, b) && le(b, a)
  }

  /** The elements of `s` tied with `y`, in their order in `s`. */
  function TiedWith<T>(s: seq<T>, y: T, le: (T, T) -> bool): seq<T>
  {
    if s == [] then []
    else (if Tied(le, s[0], y) then [s[0]] else []) + TiedWith(s[1..], y, le)
  }

  lemma {:induction false} TiedWithConcat<T>(a: seq<T>, b: seq<T>, y: T, le: (T, T) -> bool)
    ensures TiedWith(a + b, y, le) == TiedWith(a, y, le) + TiedWith(b, y, le)
  {
    if a == [] {
      assert a + b == b;
    } else {
      var ab := a + b;
      var h: seq<T> := if Tied(le, a[0], y) then [a[0]] else [];
      assert ab[0] == a[0] && ab[1..] == a[1..] + b;
      assert TiedWith(ab, y, le) == h + TiedWith(a[1..] + b, y, le);
      TiedWithConcat(a[1..], b, y, le);
      assert TiedWith(a, y, le) == h + TiedWith(a[1..], y, le);
    }
  }

  lemma {:induction false} InsertTied<T(!new)>(x: T, s: seq<T>, y: T, le: (T, T) -> bool)
    requires TotalPreorder(le)
    ensures TiedWith(Insert(x, s, le), y, le)
         == (if Tied(le, x, y) then [x] else []) + TiedWith(s, y, le)
  {
    var xs := if Tied(le, x, y) then [x] else [];
    if s == [] || le(x, s[0]) {
      assert Insert(x, s, le) == [x] + s;
      TiedWithConcat([x], s, y, le);
    } else {
      var t := Insert(x, s[1..], le);
      var zs := if Tied(le, s[0], y) then [s[0]] else [];
      var rest := TiedWith(s[1..], y, le);
      assert Insert(x, s, le) == [s[0]] + t;
      assert s == [s[0]] + s[1..];
      InsertTied(x, s[1..], y, le);
      TiedWithConcat([s[0]], t, y, le);
      TiedWithConcat([s[0]], s[1..], y, le);
      NotBothTied(x, s[0], y, le);
      calc {
        TiedWith(Insert(x, s, le), y, le);
        zs + TiedWith(t, y, le);
        zs + (xs + rest);
        { assert xs == [] || zs == []; }
        xs + (zs + rest);
        xs + TiedWith(s, y, le);
      }
    }
  }

  /** An element that sorts strictly before `x` is not tied with what `x` is tied with. */
  lemma NotBothTied<T(!new)>(x: T, z: T, y: T, le: (T, T) -> bool)
    requires TotalPreorder(le) && !le(x, z)
    ensures !(Tied(le, x, y) && Tied(le, z, y))
  {
  }

  /** Stability: the elements tied with any value keep their input order. */
  lemma {:induction false} SortByStable<T(!new)>(s: seq<T>, y: T, le: (T, T) -> bool)
    requires TotalPreorder(le)
    ensures TiedWith(SortBy(s, le), y, le) == TiedWith(s, y, le)
  {
    if s != [] {
      SortByStable(s[1..], y, le);
      InsertTied(s[0], SortBy(s[1..], le), y, le);
      assert s == [s[0]] + s[1..];
    }
  }

  // ---------------------------------------------------------------- comparators that agree

  lemma {:induction false} InsertAgree<T>(x: T, t: seq<T>, le: (T, T) -> bool, le2: (T, T) -> bool)
    requires forall i :: 0 <= i < |t| ==> le(x, t[i]) == le2(x, t[i])
    ensures Insert(x, t, le) == Insert(x, t, le2)
  {
    if t != [] && !le(x, t[0]) {
      InsertAgree(x, t[1..], le, le2);
    }
  }

  /** Two comparators that agree on the elements of `s` sort it alike, so
      what is proved for a total preorder carries over to a comparator that
      is one only on the values actually sorted. */
  lemma {:induction false} SortByAgree<T>(s: seq<T>, le: (T, T) -> bool, le2: (T, T) -> bool)
    requires forall a, b :: a in s && b in s ==> le(a, b) == le2(a, b)
    ensures SortBy(s, le) == SortBy(s, le2)
  {
    if s != [] {
      SortByAgree(s[1..], le, le2);
      var t := SortBy(s[1..], le2);
      SortByPermutation(s[1..], le2);
      forall i | 0 <= i < |t| ensures le(s[0], t[i]) == le2(s[0], t[i]) {
        assert t[i] in multiset(s[1..]);
      }
      InsertAgree(s[0], t, le, le2);
    }
  }

  lemma {:induction false} TiedWithAgree<T>(s: seq<T>, y: T, le: (T, T) -> bool, le2: (T, T) -> bool)
    requires forall i :: 0 <= i < |s| ==> le(s[i], y) == le2(s[i], y) && le(y, s[i]) == le2(y, s[i])
    ensures TiedWith(s, y, le) == TiedWith(s, y, le2)
  {
    if s != [] {
      TiedWithAgree(s[1..], y, le, le2);
    }
  }
}
