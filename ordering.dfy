/** Python's sort keys and the sequence operations the pipelines are built
    from: tuple keys compared element by element, the stable sort of
    `sorted`/`list.sort`, `filter`, and de-duplication through `set`. */
module Ordering {
  import opened Text

  /** One component of a key tuple: an `int` or a `str`. */
  datatype Atom = Num(n: int) | Str(s: string)

  /** A key tuple such as `(rank, date)`. */
  type Key = seq<Atom>

  /** `<` on two tuple components. The source only compares components of the
      same kind; Python would raise `TypeError` on a mixed pair, which this
      total order places numbers first for. */
  predicate AtomLess(a: Atom, b: Atom)
  {
    match (a, b)
    case (Num(x), Num(y)) => x < y
    case (Str(x), Str(y)) => LexLess(x, y)
    case (Num(_), Str(_)) => true
    case (Str(_), Num(_)) => false
  }

  /** `<` on tuples: lexicographic, a proper prefix first. */
  predicate KeyLess(a: Key, b: Key)
    decreases |a|
  {
    |b| > 0 && (|a| == 0 || AtomLess(a[0], b[0]) || (a[0] == b[0] && KeyLess(a[1..], b[1..])))
  }

  predicate KeyLeq(a: Key, b: Key)
  {
    a == b || KeyLess(a, b)
  }

  lemma AtomLessIsStrictTotalOrder(a: Atom, b: Atom, c: Atom)
    ensures !AtomLess(a, a)
    ensures AtomLess(a, b) && AtomLess(b, c) ==> AtomLess(a, c)
    ensures a == b || AtomLess(a, b) || AtomLess(b, a)
  {
    if a.Str? { LexLessIrreflexive(a.s); }
    if a.Str? && b.Str? && c.Str? && LexLess(a.s, b.s) && LexLess(b.s, c.s) {
      LexLessTransitive(a.s, b.s, c.s);
    }
    if a.Str? && b.Str? { LexLessTotal(a.s, b.s); }
  }

  lemma {:induction false} KeyLessIrreflexive(a: Key)
    ensures !KeyLess(a, a)
    decreases |a|
  {
    if |a| > 0 {
      AtomLessIsStrictTotalOrder(a[0], a[0], a[0]);
      KeyLessIrreflexive(a[1..]);
    }
  }

  lemma {:induction false} KeyLessTransitive(a: Key, b: Key, c: Key)
    requires KeyLess(a, b) && KeyLess(b, c)
    ensures KeyLess(a, c)
    decreases |a|
  {
    if |a| > 0 {
      AtomLessIsStrictTotalOrder(a[0], b[0], c[0]);
      AtomLessIsStrictTotalOrder(b[0], a[0], a[0]);
      AtomLessIsStrictTotalOrder(c[0], b[0], b[0]);
      if a[0] == b[0] && b[0] == c[0] {
        KeyLessTransitive(a[1..], b[1..], c[1..]);
      }
    }
  }

  lemma {:induction false} KeyLessTotal(a: Key, b: Key)
    ensures a == b || KeyLess(a, b) || KeyLess(b, a)
    decreases |a|
  {
    if |a| > 0 && |b| > 0 {
      AtomLessIsStrictTotalOrder(a[0], b[0], b[0]);
      if a[0] == b[0] {
        KeyLessTotal(a[1..], b[1..]);
        if a[1..] == b[1..] {
          assert a == [a[0]] + a[1..] && b == [b[0]] + b[1..];
        }
      }
    }
  }

  /** `<=` on keys is a total preorder (indeed a total order). */
  lemma KeyLeqIsTotalOrder(a: Key, b: Key, c: Key)
    ensures KeyLeq(a, b) && KeyLeq(b, c) ==> KeyLeq(a, c)
    ensures KeyLeq(a, b) || KeyLeq(b, a)
    ensures KeyLeq(a, b) && KeyLeq(b, a) ==> a == b
    ensures KeyLeq(a, b) <==> !KeyLess(b, a)
  {
    KeyLessTotal(a, b);
    KeyLessIrreflexive(a);
    if KeyLess(a, b) && KeyLess(b, c) { KeyLessTransitive(a, b, c); }
    if KeyLess(a, b) && KeyLess(b, a) { KeyLessTransitive(a, b, a); }
  }

  // ---------------------------------------------------------------- sorting

  predicate SortedBy<T>(s: seq<T>, key: T -> Key)
  {
    forall i, j :: 0 <= i < j < |s| ==> KeyLeq(key(s[i]), key(s[j]))
  }

  /** Places `x` in front of the first element whose key is not smaller. */
  function Insert<T>(x: T, s: seq<T>, key: T -> Key): (r: seq<T>)
    ensures |r| == |s| + 1
  {
    if s == [] then [x]
    else if KeyLeq(key(x), key(s[0])) then [x] + s
    else [s[0]] + Insert(x, s[1..], key)
  }

  /** `sorted(s, key=key)`: Python's stable sort, as an insertion sort. */
  function SortBy<T>(s: seq<T>, key: T -> Key): (r: seq<T>)
    ensures |r| == |s|
  {
    if s == [] then [] else Insert(s[0], SortBy(s[1..], key), key)
  }

  lemma {:induction false} InsertContents<T>(x: T, s: seq<T>, key: T -> Key)
    ensures multiset(Insert(x, s, key)) == multiset(s) + multiset{x}
  {
    if s != [] && !KeyLeq(key(x), key(s[0])) {
      InsertContents(x, s[1..], key);
      assert s == [s[0]] + s[1..];
    }
  }

  /** Inserting above a lower bound keeps every key above it. */
  lemma {:induction false} InsertLowerBound<T>(x: T, s: seq<T>, key: T -> Key, k: Key)
    requires KeyLeq(k, key(x))
    requires forall i :: 0 <= i < |s| ==> KeyLeq(k, key(s[i]))
    ensures forall i :: 0 <= i < |Insert(x, s, key)| ==> KeyLeq(k, key(Insert(x, s, key)[i]))
  {
    if s != [] && !KeyLeq(key(x), key(s[0])) {
      InsertLowerBound(x, s[1..], key, k);
      var t := Insert(x, s[1..], key);
      var r := [s[0]] + t;
      forall i | 0 <= i < |r| ensures KeyLeq(k, key(r[i])) {
        if i > 0 { assert r[i] == t[i - 1]; }
      }
    }
  }

  /** A sorted sequence stays sorted when an element no greater than its head goes in front. */
  lemma ConsSorted<T>(x: T, s: seq<T>, key: T -> Key)
    requires SortedBy(s, key)
    requires forall i :: 0 <= i < |s| ==> KeyLeq(key(x), key(s[i]))
    ensures SortedBy([x] + s, key)
  {
    var r := [x] + s;
    forall i, j | 0 <= i < j < |r| ensures KeyLeq(key(r[i]), key(r[j])) {
      if i == 0 { assert r[j] == s[j - 1]; }
      else { assert r[i] == s[i - 1] && r[j] == s[j - 1]; }
    }
  }

  lemma {:induction false} InsertSorted<T>(x: T, s: seq<T>, key: T -> Key)
    requires SortedBy(s, key)
    ensures SortedBy(Insert(x, s, key), key)
  {
    if s == [] {
    } else if KeyLeq(key(x), key(s[0])) {
      forall i | 0 <= i < |s| ensures KeyLeq(key(x), key(s[i])) {
        if i > 0 { KeyLeqIsTotalOrder(key(x), key(s[0]), key(s[i])); }
      }
      ConsSorted(x, s, key);
    } else {
      KeyLeqIsTotalOrder(key(x), key(s[0]), key(s[0]));
      var tail := s[1..];
      assert SortedBy(tail, key) by {
        forall i, j | 0 <= i < j < |tail| ensures KeyLeq(key(tail[i]), key(tail[j])) {
          assert tail[i] == s[i + 1] && tail[j] == s[j + 1];
        }
      }
      assert forall i :: 0 <= i < |tail| ==> KeyLeq(key(s[0]), key(tail[i])) by {
        forall i | 0 <= i < |tail| ensures KeyLeq(key(s[0]), key(tail[i])) { assert tail[i] == s[i + 1]; }
      }
      InsertSorted(x, tail, key);
      InsertLowerBound(x, tail, key, key(s[0]));
      ConsSorted(s[0], Insert(x, tail, key), key);
    }
  }

  /** `sorted` returns the same elements, in key order. */
  lemma {:induction false} SortByCorrect<T>(s: seq<T>, key: T -> Key)
    ensures SortedBy(SortBy(s, key), key)
    ensures multiset(SortBy(s, key)) == multiset(s)
  {
    if s != [] {
      SortByCorrect(s[1..], key);
      InsertSorted(s[0], SortBy(s[1..], key), key);
      InsertContents(s[0], SortBy(s[1..], key), key);
      assert s == [s[0]] + s[1..];
    }
  }

  lemma {:induction false} InsertNoDuplicates<T>(x: T, s: seq<T>, key: T -> Key)
    requires NoDuplicates(s) && x !in s
    ensures NoDuplicates(Insert(x, s, key))
  {
    if s != [] && !KeyLeq(key(x), key(s[0])) {
      assert NoDuplicates(s[1..]) by {
        forall i, j | 0 <= i < j < |s[1..]| ensures s[1..][i] != s[1..][j] {
          assert s[1..][i] == s[i + 1] && s[1..][j] == s[j + 1];
        }
      }
      assert x !in s[1..];
      InsertNoDuplicates(x, s[1..], key);
      InsertContents(x, s[1..], key);
      var t := Insert(x, s[1..], key);
      assert s[0] !in t by {
        assert s[0] !in s[1..] by {
          forall k | 0 <= k < |s[1..]| ensures s[1..][k] != s[0] { assert s[1..][k] == s[k + 1]; }
        }
        assert s[0] !in multiset(t);
      }
      var r := [s[0]] + t;
      forall i, j | 0 <= i < j < |r| ensures r[i] != r[j] {
        if i == 0 { assert r[j] in t; }
        else { assert r[i] == t[i - 1] && r[j] == t[j - 1]; }
      }
    }
  }

  /** Sorting a list without repeats yields one without repeats. */
  lemma {:induction false} SortByNoDuplicates<T>(s: seq<T>, key: T -> Key)
    requires NoDuplicates(s)
    ensures NoDuplicates(SortBy(s, key))
  {
    if s != [] {
      assert NoDuplicates(s[1..]) by {
        forall i, j | 0 <= i < j < |s[1..]| ensures s[1..][i] != s[1..][j] {
          assert s[1..][i] == s[i + 1] && s[1..][j] == s[j + 1];
        }
      }
      SortByNoDuplicates(s[1..], key);
      SortByCorrect(s[1..], key);
      assert s[0] !in SortBy(s[1..], key) by {
        assert s[0] !in s[1..] by {
          forall k | 0 <= k < |s[1..]| ensures s[1..][k] != s[0] { assert s[1..][k] == s[k + 1]; }
        }
        assert s[0] !in multiset(SortBy(s[1..], key));
      }
      InsertNoDuplicates(s[0], SortBy(s[1..], key), key);
    }
  }

  // ---------------------------------------------------------------- filtering

  /** `list(filter(p, s))` */
  function Filter<T(!new)>(s: seq<T>, p: T -> bool): (r: seq<T>)
    ensures |r| <= |s|
    ensures forall x :: x in r <==> x in s && p(x)
  {
    if s == [] then []
    else if p(s[0]) then [s[0]] + Filter(s[1..], p)
    else Filter(s[1..], p)
  }

  /** Filtering keeps a sub-multiset: nothing is added or duplicated. */
  lemma {:induction false} FilterSubMultiset<T(!new)>(s: seq<T>, p: T -> bool)
    ensures multiset(Filter(s, p)) <= multiset(s)
  {
    if s != [] {
      FilterSubMultiset(s[1..], p);
      assert s == [s[0]] + s[1..];
    }
  }

  /** Filtering with a condition every element meets changes nothing. */
  lemma {:induction false} FilterAll<T(!new)>(s: seq<T>, p: T -> bool)
    requires forall i :: 0 <= i < |s| ==> p(s[i])
    ensures Filter(s, p) == s
  {
    if s != [] {
      FilterAll(s[1..], p);
      assert s == [s[0]] + s[1..];
    }
  }

  /** Two conditions that agree on every element of `s` filter it alike. */
  lemma {:induction false} FilterCongruent<T(!new)>(s: seq<T>, p: T -> bool, q: T -> bool)
    requires forall i :: 0 <= i < |s| ==> p(s[i]) == q(s[i])
    ensures Filter(s, p) == Filter(s, q)
  {
    if s != [] {
      assert forall i :: 0 <= i < |s[1..]| ==> s[1..][i] == s[i + 1];
      FilterCongruent(s[1..], p, q);
    }
  }

  /** The elements of `s` whose key is `k`, in order. */
  function WithKey<T(!new)>(s: seq<T>, key: T -> Key, k: Key): seq<T>
  {
    Filter(s, x => key(x) == k)
  }

  lemma {:induction false} InsertStable<T(!new)>(x: T, s: seq<T>, key: T -> Key, k: Key)
    ensures WithKey(Insert(x, s, key), key, k) == (if key(x) == k then [x] else []) + WithKey(s, key, k)
  {
    if s == [] {
    } else if KeyLeq(key(x), key(s[0])) {
    } else {
      InsertStable(x, s[1..], key, k);
      assert s == [s[0]] + s[1..];
      if key(x) == k {
        assert key(s[0]) != k;
      }
    }
  }

  /** `sorted` is stable: elements with equal keys keep their input order. */
  lemma {:induction false} SortByStable<T(!new)>(s: seq<T>, key: T -> Key, k: Key)
    ensures WithKey(SortBy(s, key), key, k) == WithKey(s, key, k)
  {
    if s != [] {
      SortByStable(s[1..], key, k);
      InsertStable(s[0], SortBy(s[1..], key), key, k);
      assert s == [s[0]] + s[1..];
    }
  }

  // ---------------------------------------------------------------- sets

  predicate NoDuplicates<T(==)>(s: seq<T>)
  {
    forall i, j :: 0 <= i < j < |s| ==> s[i] != s[j]
  }

  /** The distinct elements of `s`, each at its first occurrence: one order in
      which `set(s)` can be listed. */
  function Distinct<T(==,!new)>(s: seq<T>): (r: seq<T>)
    ensures NoDuplicates(r)
    ensures forall x :: x in r <==> x in s
  {
    if s == [] then []
    else
      var d := Distinct(s[..|s| - 1]);
      assert forall x :: x in s <==> x in s[..|s| - 1] || x == s[|s| - 1];
      if s[|s| - 1] in d then d else d + [s[|s| - 1]]
  }

  /** The elements of `s`, mapped through `f`. */
  function Map<T, U>(s: seq<T>, f: T -> U): (r: seq<U>)
    ensures |r| == |s| && forall i :: 0 <= i < |s| ==> r[i] == f(s[i])
  {
    seq(|s|, i requires 0 <= i < |s| => f(s[i]))
  }

  /** `sorted(set(f(x) for x in s), key=key)`: the distinct images of `s`
      under `f`, each once, ordered by `key`. */
  lemma SortedDistinctImage<T, U(!new)>(s: seq<T>, f: T -> U, key: U -> Key)
    ensures var r := SortBy(Distinct(Map(s, f)), key);
      && NoDuplicates(r) && SortedBy(r, key)
      && forall y :: y in r <==> exists i :: 0 <= i < |s| && y == f(s[i])
  {
    var d := Distinct(Map(s, f));
    SortByCorrect(d, key);
    SortByNoDuplicates(d, key);
    var r := SortBy(d, key);
    var m := Map(s, f);
    forall y ensures y in r <==> exists i :: 0 <= i < |s| && y == f(s[i]) {
      assert y in r <==> y in multiset(d);
      if y in m {
        var i :| 0 <= i < |m| && m[i] == y;
      }
      if exists i :: 0 <= i < |s| && y == f(s[i]) {
        var i :| 0 <= i < |s| && y == f(s[i]);
        assert m[i] == y;
      }
    }
  }

  /** The concatenation of `ss` in order: `for s in ss: out.extend(s)`. */
  function Flatten<T>(ss: seq<seq<T>>): seq<T>
  {
    if ss == [] then [] else Flatten(ss[..|ss| - 1]) + ss[|ss| - 1]
  }

  function SumLengths<T>(ss: seq<seq<T>>): nat
  {
    if ss == [] then 0 else SumLengths(ss[..|ss| - 1]) + |ss[|ss| - 1]|
  }

  /** The concatenation holds every part in order: its length is the sum of
      the parts' lengths and every element belongs to some part. */
  lemma {:induction false} FlattenContents<T>(ss: seq<seq<T>>)
    ensures |Flatten(ss)| == SumLengths(ss)
    ensures forall x :: x in Flatten(ss) ==> exists i :: 0 <= i < |ss| && x in ss[i]
  {
    if ss != [] {
      var init := ss[..|ss| - 1];
      FlattenContents(init);
      forall x | x in Flatten(ss) ensures exists i :: 0 <= i < |ss| && x in ss[i] {
        if x in Flatten(init) {
          var i :| 0 <= i < |init| && x in init[i];
          assert ss[i] == init[i];
        } else {
          assert x in ss[|ss| - 1];
        }
      }
    }
  }
}
