/** The string and array primitives the services lean on: `toLowerCase`,
    `includes`, `trim().length === 0`, and `Array.prototype.sort` with a
    numeric comparator. */
module Seqs {

  /** `toLowerCase` on one character, for the ASCII letters. */
  function LowerChar(c: char): char
  {
    if 'A' <= c <= 'Z' then (c as int + 32) as char else c
  }

  /** `s.toLowerCase()`, for the ASCII letters. */
  function Lower(s: string): (r: string)
    ensures |r| == |s|
    ensures forall i :: 0 <= i < |s| ==> r[i] == LowerChar(s[i])
    ensures forall i :: 0 <= i < |r| ==> !('A' <= r[i] <= 'Z')
  {
    seq(|s|, i requires 0 <= i < |s| => LowerChar(s[i]))
  }

  /** `s.includes(sub)`: `sub` is a prefix of `s` or of one of its suffixes. */
  predicate Contains(s: string, sub: string)
  {
    sub <= s || (|s| > 0 && Contains(s[1..], sub))
  }

  /** The characters `String.prototype.trim` removes, for the ASCII range. */
  predicate IsWhitespace(c: char)
  {
    c == ' ' || c == '\t' || c == '\n' || c == '\r' || c == '\U{000B}' || c == '\U{000C}'
  }

  /** `s.trim().length === 0`. */
  predicate IsBlank(s: string)
  {
    forall i :: 0 <= i < |s| ==> IsWhitespace(s[i])
  }

  /** Keys do not decrease from left to right. */
  ghost predicate SortedBy<T>(s: seq<T>, key: T -> int)
  {
    forall i, j :: 0 <= i < j < |s| ==> key(s[i]) <= key(s[j])
  }

  /** Puts `x` in front of the first element whose key is not smaller, so
      that `x` stays ahead of elements with an equal key. */
  function InsertBy<T>(x: T, s: seq<T>, key: T -> int): (r: seq<T>)
    ensures multiset(r) == multiset(s) + multiset{x}
    ensures |r| == |s| + 1
  {
    if |s| == 0 then [x]
    else if key(x) <= key(s[0]) then [x] + s
    else assert s == [s[0]] + s[1..]; [s[0]] + InsertBy(x, s[1..], key)
  }

  /** A stable sort by ascending key: `array.sort((a, b) => key(a) - key(b))`
      (JavaScript's sort is stable). A descending sort is a sort by the
      negated key. */
  function SortBy<T>(s: seq<T>, key: T -> int): (r: seq<T>)
    ensures multiset(r) == multiset(s)
    ensures |r| == |s|
  {
    if |s| == 0 then []
    else assert s == [s[0]] + s[1..]; InsertBy(s[0], SortBy(s[1..], key), key)
  }

  lemma {:induction false} InsertBySorted<T>(x: T, s: seq<T>, key: T -> int)
    requires SortedBy(s, key)
    ensures SortedBy(InsertBy(x, s, key), key)
  {
    if |s| > 0 && key(x) > key(s[0]) {
      InsertBySorted(x, s[1..], key);
      var t := InsertBy(x, s[1..], key);
      assert multiset(t) == multiset(s[1..]) + multiset{x};
      forall k | 0 <= k < |t| ensures key(s[0]) <= key(t[k]) {
        assert t[k] in multiset(t);
        if t[k] == x {
        } else {
          assert t[k] in multiset(s[1..]);
          var m :| 0 <= m < |s[1..]| && s[1..][m] == t[k];
          assert s[1..][m] == s[m + 1];
        }
      }
    }
  }

  /** The sort orders its result by key and keeps every element. */
  lemma {:induction false} SortBySorted<T>(s: seq<T>, key: T -> int)
    ensures SortedBy(SortBy(s, key), key)
    ensures multiset(SortBy(s, key)) == multiset(s)
  {
    if |s| > 0 {
      SortBySorted(s[1..], key);
      InsertBySorted(s[0], SortBy(s[1..], key), key);
    }
  }

  /** An element is in the sorted sequence exactly when it is in the input. */
  lemma SortByMembers<T>(s: seq<T>, key: T -> int)
    ensures forall x :: x in SortBy(s, key) <==> x in s
  {
    var r := SortBy(s, key);
    forall x ensures x in r <==> x in s {
      assert x in r <==> x in multiset(r);
      assert x in s <==> x in multiset(s);
    }
  }

  /** A stable sort by descending key:
      `array.sort((a, b) => key(b) - key(a))`. */
  function SortDescBy<T>(s: seq<T>, key: T -> int): (r: seq<T>)
    ensures multiset(r) == multiset(s)
    ensures |r| == |s|
    ensures forall i, j :: 0 <= i < j < |r| ==> key(r[i]) >= key(r[j])
  {
    var neg := (x: T) => -key(x);
    SortBySorted(s, neg);
    SortBy(s, neg)
  }

  /** An element is in the descending sort exactly when it is in the input. */
  lemma SortDescByMembers<T>(s: seq<T>, key: T -> int)
    ensures forall x :: x in SortDescBy(s, key) <==> x in s
  {
    var r := SortDescBy(s, key);
    forall x ensures x in r <==> x in s {
      assert x in r <==> x in multiset(r);
      assert x in s <==> x in multiset(s);
    }
  }

  /** `array.filter(p)`: the elements satisfying `p`, in their order. */
  function Filter<T>(s: seq<T>, p: T -> bool): (r: seq<T>)
    ensures forall i :: 0 <= i < |r| ==> r[i] in s && p(r[i])
    ensures forall i :: 0 <= i < |s| && p(s[i]) ==> s[i] in r
    ensures |r| <= |s|
  {
    if |s| == 0 then []
    else (if p(s[0]) then [s[0]] else []) + Filter(s[1..], p)
  }

  /** An element is kept by the filter exactly when it is in the input and
      satisfies `p`. */
  lemma FilterMembers<T>(s: seq<T>, p: T -> bool)
    ensures forall x :: x in Filter(s, p) <==> x in s && p(x)
  {
    var r := Filter(s, p);
    forall x ensures x in r <==> x in s && p(x) {
      if x in r {
        var i :| 0 <= i < |r| && r[i] == x;
      }
      if x in s && p(x) {
        var i :| 0 <= i < |s| && s[i] == x;
      }
    }
  }
  /** `cond ? s.filter(p) : s`. */
  function FilterIf<T(!new)>(s: seq<T>, cond: bool, p: T -> bool): (r: seq<T>)
    ensures forall x :: x in r <==> x in s && (cond ==> p(x))
  {
    FilterMembers(s, p);
    if cond then Filter(s, p) else s
  }


  /** `s.map(f)`. */
  function MapSeq<T, U>(s: seq<T>, f: T -> U): (r: seq<U>)
    ensures |r| == |s|
    ensures forall i :: 0 <= i < |s| ==> r[i] == f(s[i])
  {
    seq(|s|, i requires 0 <= i < |s| => f(s[i]))
  }

  /** `items.filter(keep).map(view).sort(...)` with a descending sort on
      `key`: the views of exactly the kept items, largest key first. */
  function FilterMapSortDesc<T(!new), V(!new)>(items: seq<T>, keep: T -> bool, view: T -> V, key: V -> int)
    : (r: seq<V>)
    ensures forall y :: y in r ==> exists x :: x in items && keep(x) && y == view(x)
    ensures forall x :: x in items && keep(x) ==> view(x) in r
    ensures forall i, j :: 0 <= i < j < |r| ==> key(r[i]) >= key(r[j])
    ensures multiset(r) == multiset(MapSeq(Filter(items, keep), view))
  {
    var chosen := Filter(items, keep);
    var views := MapSeq(chosen, view);
    var r := SortDescBy(views, key);
    FilterMembers(items, keep);
    SortDescByMembers(views, key);
    assert forall y :: y in r ==> exists x :: x in items && keep(x) && y == view(x) by {
      forall y | y in r ensures exists x :: x in items && keep(x) && y == view(x) {
        var i :| 0 <= i < |views| && views[i] == y;
        assert chosen[i] in items && keep(chosen[i]);
      }
    }
    assert forall x :: x in items && keep(x) ==> view(x) in r by {
      forall x | x in items && keep(x) ensures view(x) in r {
        var i :| 0 <= i < |chosen| && chosen[i] == x;
        assert views[i] == view(x);
      }
    }
    r
  }

  /** No element occurs twice. */
  ghost predicate Distinct<T>(xs: seq<T>)
  {
    forall i, j :: 0 <= i < j < |xs| ==> xs[i] != xs[j]
  }

  /** The set of the elements of `xs`. */
  ghost function Elements<T>(xs: seq<T>): set<T>
  {
    set x | x in xs
  }

  /** A sequence has at least as many entries as distinct elements, and
      exactly as many when no element repeats. */
  lemma {:induction false} ElementsCard<T>(xs: seq<T>)
    ensures |Elements(xs)| <= |xs|
    ensures |Elements(xs)| == |xs| <==> Distinct(xs)
  {
    if |xs| > 0 {
      var n := |xs| - 1;
      var init := xs[..n];
      ElementsCard(init);
      assert xs == init + [xs[n]];
      assert Elements(xs) == Elements(init) + {xs[n]};
      if xs[n] in init {
        assert Elements(xs) == Elements(init);
        var m :| 0 <= m < n && init[m] == xs[n];
        assert xs[m] == xs[n];
      } else {
        assert |Elements(xs)| == |Elements(init)| + 1;
        if Distinct(init) {
          forall i, j | 0 <= i < j < |xs| ensures xs[i] != xs[j] {
            if j == n {
              assert xs[i] == init[i];
            } else {
              assert xs[i] == init[i] && xs[j] == init[j];
            }
          }
        } else {
          var i, j :| 0 <= i < j < |init| && init[i] == init[j];
          assert xs[i] == xs[j];
        }
      }
    }
  }

  /** A subset as large as its superset is the superset. */
  lemma SubsetCard<T>(a: set<T>, b: set<T>)
    requires a <= b && |a| >= |b|
    ensures a == b
  {
    assert |b - a| == |b| - |a|;
  }

  /** The number of positions at which `a` and `b` differ. */
  function Changed<T(==)>(a: seq<T>, b: seq<T>): nat
    requires |a| == |b|
  {
    if |a| == 0 then 0
    else Changed(a[..|a| - 1], b[..|b| - 1]) + (if a[|a| - 1] != b[|b| - 1] then 1 else 0)
  }
}
