/** Stable insertion sort, standing for Go's `sort.Slice`, `sort.SliceStable` and `sort.Strings`,
    and the byte-wise order of Go strings. */
module Sorting {

  /** What Go demands of a comparator: irreflexive, transitive, and incomparability transitive. */
  ghost predicate StrictWeak<T(!new)>(less: (T, T) -> bool) {
    && (forall x :: !less(x, x))
    && (forall x, y, z :: less(x, y) && less(y, z) ==> less(x, z))
    && (forall x, y, z :: less(x, z) ==> less(x, y) || less(y, z))
  }

  ghost predicate Sorted<T>(less: (T, T) -> bool, s: seq<T>) {
    forall i, j :: 0 <= i < j < |s| ==> !less(s[j], s[i])
  }

  function Insert<T>(less: (T, T) -> bool, x: T, s: seq<T>): (r: seq<T>)
    ensures multiset(r) == multiset(s) + multiset{x}
    ensures |r| == |s| + 1
  {
    if s != [] && less(s[0], x) then
      assert s == [s[0]] + s[1..];
      [s[0]] + Insert(less, x, s[1..])
    else
      [x] + s
  }

  function Sort<T>(less: (T, T) -> bool, s: seq<T>): (r: seq<T>)
    ensures multiset(r) == multiset(s)
    ensures |r| == |s|
  {
    if s == [] then []
    else
      assert s == [s[0]] + s[1..];
      Insert(less, s[0], Sort(less, s[1..]))
  }

  lemma {:induction false} InsertSorted<T(!new)>(less: (T, T) -> bool, x: T, s: seq<T>)
    requires StrictWeak(less) && Sorted(less, s)
    ensures Sorted(less, Insert(less, x, s))
  {
    if s != [] && less(s[0], x) {
      InsertSorted(less, x, s[1..]);
      var r := Insert(less, x, s[1..]);
      forall k | 0 <= k < |r| ensures !less(r[k], s[0]) {
        assert r[k] in multiset(r);
        if r[k] != x {
          assert r[k] in multiset(s[1..]);
        }
      }
    } else {
      forall k | 0 <= k < |s| ensures !less(s[k], x) {
        var y, h := s[k], s[0];
        assert less(y, x) ==> less(y, h) || less(h, x);
      }
    }
  }

  lemma {:induction false} SortSorts<T(!new)>(less: (T, T) -> bool, s: seq<T>)
    requires StrictWeak(less)
    ensures Sorted(less, Sort(less, s))
  {
    if s != [] {
      SortSorts(less, s[1..]);
      InsertSorted(less, s[0], Sort(less, s[1..]));
    }
  }

  /** The elements of `s` that the comparator cannot tell from `c`, in order. */
  ghost function Peers<T>(less: (T, T) -> bool, c: T, s: seq<T>): seq<T> {
    if s == [] then []
    else if !less(c, s[0]) && !less(s[0], c) then [s[0]] + Peers(less, c, s[1..])
    else Peers(less, c, s[1..])
  }

  lemma {:induction false} InsertKeepsPeers<T(!new)>(less: (T, T) -> bool, c: T, x: T, s: seq<T>)
    requires StrictWeak(less)
    ensures Peers(less, c, Insert(less, x, s)) == Peers(less, c, [x] + s)
  {
    assert ([x] + s)[1..] == s;
    if s != [] && less(s[0], x) {
      InsertKeepsPeers(less, c, x, s[1..]);
      assert ([x] + s[1..])[1..] == s[1..];
      assert Insert(less, x, s)[1..] == Insert(less, x, s[1..]);
    }
  }

  /** Stability: elements that compare equal keep their input order. */
  lemma {:induction false} SortStable<T(!new)>(less: (T, T) -> bool, c: T, s: seq<T>)
    requires StrictWeak(less)
    ensures Peers(less, c, Sort(less, s)) == Peers(less, c, s)
  {
    if s != [] {
      SortStable(less, c, s[1..]);
      InsertKeepsPeers(less, c, s[0], Sort(less, s[1..]));
      assert ([s[0]] + Sort(less, s[1..]))[1..] == Sort(less, s[1..]);
    }
  }

  /** The first element of the result is a least one, and the earliest of those in the input. */
  lemma SortHead<T(!new)>(less: (T, T) -> bool, s: seq<T>)
    requires StrictWeak(less) && s != []
    ensures var best := Sort(less, s)[0];
            && best in s
            && (forall v :: v in s ==> !less(v, best))
            && Peers(less, best, s) != [] && Peers(less, best, s)[0] == best
  {
    var r := Sort(less, s);
    SortSorts(less, s);
    assert r[0] in multiset(s);
    forall v | v in s ensures !less(v, r[0]) {
      assert v in multiset(r);
      var k :| 0 <= k < |r| && r[k] == v;
    }
    SortStable(less, r[0], s);
  }

  /** When any two elements of the collection are comparable, there is only one sorted arrangement,
      so an unstable sort gives the same result. */
  lemma {:induction false} SortedUnique<T(!new)>(less: (T, T) -> bool, s: seq<T>, t: seq<T>)
    requires StrictWeak(less)
    requires Sorted(less, s) && Sorted(less, t) && multiset(s) == multiset(t)
    requires forall x, y :: x in s && y in s && x != y ==> less(x, y) || less(y, x)
    ensures s == t
  {
    assert |s| == |multiset(s)| == |multiset(t)| == |t|;
    if s != [] {
      assert t[0] in multiset(s);
      SameLeast(less, s, t);
      TailMultiset(s);
      TailMultiset(t);
      TailSorted(less, s);
      TailSorted(less, t);
      assert s == [s[0]] + s[1..] && t == [t[0]] + t[1..];
      hide StrictWeak, Sorted;
      SortedUnique(less, s[1..], t[1..]);
    }
  }

  lemma TailSorted<T>(less: (T, T) -> bool, s: seq<T>)
    requires Sorted(less, s) && s != []
    ensures Sorted(less, s[1..])
  {
  }

  lemma TailMultiset<T>(s: seq<T>)
    requires s != []
    ensures multiset(s[1..]) == multiset(s) - multiset{s[0]}
  {
    assert s == [s[0]] + s[1..];
  }

  lemma SameLeast<T(!new)>(less: (T, T) -> bool, s: seq<T>, t: seq<T>)
    requires StrictWeak(less) && Sorted(less, s) && Sorted(less, t)
    requires s != [] && t != [] && multiset(s) == multiset(t)
    requires s[0] != t[0] ==> less(s[0], t[0]) || less(t[0], s[0])
    ensures s[0] == t[0]
  {
    assert s[0] in multiset(t) && t[0] in multiset(s);
    var i :| 0 <= i < |t| && t[i] == s[0];
    var j :| 0 <= j < |s| && s[j] == t[0];
    assert !less(t[i], t[0]) && !less(s[j], s[0]);
  }

  /** Go's `<` on strings. */
  predicate Less(a: string, b: string) {
    b != "" && (a == "" || a[0] < b[0] || (a[0] == b[0] && Less(a[1..], b[1..])))
  }

  /** A proper prefix, or the smaller character at the first difference. */
  ghost predicate ComesFirst(a: string, b: string) {
    || (|a| < |b| && a == b[..|a|])
    || exists i :: 0 <= i < |a| && i < |b| && a[..i] == b[..i] && a[i] < b[i]
  }

  lemma ComesFirstLater(a: string, b: string)
    requires a != "" && b != "" && a[0] == b[0]
    ensures ComesFirst(a[1..], b[1..]) ==> ComesFirst(a, b)
  {
    var c, d := a[1..], b[1..];
    assert a == [a[0]] + c && b == [b[0]] + d;
    if |c| < |d| && c == d[..|c|] {
      assert a == b[..|a|];
    } else if i :| 0 <= i < |c| && i < |d| && c[..i] == d[..i] && c[i] < d[i] {
      assert a[..i + 1] == [a[0]] + c[..i] && b[..i + 1] == [b[0]] + d[..i];
      assert a[i + 1] < b[i + 1];
    }
  }

  lemma ComesFirstTail(a: string, b: string)
    requires a != "" && b != "" && ComesFirst(a, b)
    ensures a[0] < b[0] || (a[0] == b[0] && ComesFirst(a[1..], b[1..]))
  {
    var c, d := a[1..], b[1..];
    if |a| < |b| && a == b[..|a|] {
      assert a[0] == b[..|a|][0] == b[0] && c == b[..|a|][1..] == d[..|c|];
    } else {
      var i :| 0 <= i < |a| && i < |b| && a[..i] == b[..i] && a[i] < b[i];
      if i > 0 {
        assert a[..i][0] == a[0] && b[..i][0] == b[0];
        assert c[..i - 1] == a[..i][1..] && d[..i - 1] == b[..i][1..] && c[i - 1] < d[i - 1];
      }
    }
  }

  lemma {:induction false} LessMeans(a: string, b: string)
    ensures Less(a, b) <==> ComesFirst(a, b)
  {
    if a != "" && b != "" {
      LessMeans(a[1..], b[1..]);
      if a[0] < b[0] { assert a[..0] == b[..0]; }
      if a[0] == b[0] { ComesFirstLater(a, b); }
      if ComesFirst(a, b) { ComesFirstTail(a, b); }
      hide ComesFirst;
    }
  }

  lemma {:induction false} LessTrichotomy(a: string, b: string)
    ensures !Less(a, a)
    ensures a != b <==> Less(a, b) || Less(b, a)
    ensures !(Less(a, b) && Less(b, a))
  {
    if a != "" { LessTrichotomy(a[1..], a[1..]); }
    if a != "" && b != "" {
      assert a == [a[0]] + a[1..] && b == [b[0]] + b[1..];
      LessTrichotomy(a[1..], b[1..]);
    }
  }

  lemma {:induction false} LessTransitive(a: string, b: string, c: string)
    requires Less(a, b) && Less(b, c)
    ensures Less(a, c)
  {
    if a != "" && a[0] == b[0] && b[0] == c[0] { LessTransitive(a[1..], b[1..], c[1..]); }
  }

  lemma LessIsStrictWeak()
    ensures StrictWeak(Less)
  {
    forall x ensures !Less(x, x) { LessTrichotomy(x, x); }
    forall x, y, z | Less(x, y) && Less(y, z) ensures Less(x, z) { LessTransitive(x, y, z); }
    forall x, y, z | Less(x, z) ensures Less(x, y) || Less(y, z) {
      LessTrichotomy(x, y);
      if Less(y, x) { LessTransitive(y, x, z); }
    }
  }
}
