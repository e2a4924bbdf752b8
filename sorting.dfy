/** A stable sort, the behaviour of `Array.prototype.sort` with a comparator and of
    `list.sort`: the result is a permutation of the input, ordered by the given
    "less than or equal" relation, and elements that compare equal keep their
    relative order. */
module Sorting {
  import opened Common

  ghost predicate TotalPreorder<T(!new)>(le: (T, T) -> bool)
  {
    && (forall a, b :: le(a, b) || le(b, a))
    && (forall a, b, c :: le(a, b) && le(b, c) ==> le(a, c))
  }

  ghost predicate SortedBy<T>(s: seq<T>, le: (T, T) -> bool)
  {
    forall i, j :: 0 <= i < j < |s| ==> le(s[i], s[j])
  }

  /** `x` and `k` compare equal. */
  predicate Tied<T>(le: (T, T) -> bool, x: T, k: T)
  {
    le(x, k) && le(k, x)
  }

  /** The elements of `s` that compare equal to `k`, in their order in `s`. */
  function TieClass<T>(s: seq<T>, le: (T, T) -> bool, k: T): (r: seq<T>)
    ensures forall x :: x in r ==> x in s && Tied(le, x, k)
  {
    if s == [] then [] else (if Tied(le, s[0], k) then [s[0]] else []) + TieClass(s[1..], le, k)
  }

  /** Puts `x` in front of the first element it is not greater than. */
  function Insert<T>(x: T, ys: seq<T>, le: (T, T) -> bool): (r: seq<T>)
    ensures multiset(r) == multiset(ys) + multiset{x}
    ensures |r| == |ys| + 1
  {
    if ys == [] then [x]
    else if le(x, ys[0]) then [x] + ys
    else
      assert ys == [ys[0]] + ys[1..];
      [ys[0]] + Insert(x, ys[1..], le)
  }

  function SortBy<T>(s: seq<T>, le: (T, T) -> bool): (r: seq<T>)
    ensures multiset(r) == multiset(s)
    ensures |r| == |s|
  {
    if s == [] then []
    else
      assert s == [s[0]] + s[1..];
      Insert(s[0], SortBy(s[1..], le), le)
  }

  lemma {:induction false} InsertSorted<T(!new)>(x: T, ys: seq<T>, le: (T, T) -> bool)
    requires TotalPreorder(le)
    requires SortedBy(ys, le)
    ensures SortedBy(Insert(x, ys, le), le)
  {
    if ys != [] && !le(x, ys[0]) {
      InsertSorted(x, ys[1..], le);
      var r := Insert(x, ys, le);
      forall j | 0 < j < |r| ensures le(r[0], r[j]) {
        assert r[j] in multiset(ys[1..]) + multiset{x};
        if r[j] == x {
          assert le(ys[0], x);
        } else {
          assert r[j] in ys[1..];
        }
      }
    }
  }

  /** The result of `SortBy` is ordered by `le`. */
  lemma {:induction false} SortBySorted<T(!new)>(s: seq<T>, le: (T, T) -> bool)
    requires TotalPreorder(le)
    ensures SortedBy(SortBy(s, le), le)
  {
    if s != [] {
      SortBySorted(s[1..], le);
      InsertSorted(s[0], SortBy(s[1..], le), le);
    }
  }

  lemma {:induction false} InsertTieClass<T(!new)>(x: T, ys: seq<T>, le: (T, T) -> bool, k: T)
    requires TotalPreorder(le)
    ensures TieClass(Insert(x, ys, le), le, k)
         == (if Tied(le, x, k) then [x] else []) + TieClass(ys, le, k)
  {
    if ys == [] {
      assert Insert(x, ys, le) == [x] && [x][1..] == [];
    } else if le(x, ys[0]) {
      assert Insert(x, ys, le) == [x] + ys && ([x] + ys)[1..] == ys;
    } else {
      InsertTieClass(x, ys[1..], le, k);
      NotBothTied(le, x, ys[0], k);
      InsertTieClassPast(x, ys, le, k);
    }
  }

  /** The step of `InsertTieClass` where `x` moves past the head of `ys`. */
  lemma InsertTieClassPast<T>(x: T, ys: seq<T>, le: (T, T) -> bool, k: T)
    requires ys != [] && !le(x, ys[0])
    requires !Tied(le, x, k) || !Tied(le, ys[0], k)
    requires TieClass(Insert(x, ys[1..], le), le, k)
          == (if Tied(le, x, k) then [x] else []) + TieClass(ys[1..], le, k)
    ensures TieClass(Insert(x, ys, le), le, k)
         == (if Tied(le, x, k) then [x] else []) + TieClass(ys, le, k)
  {
    var ins := Insert(x, ys[1..], le);
    var r := [ys[0]] + ins;
    var t0 := if Tied(le, ys[0], k) then [ys[0]] else [];
    var tx := if Tied(le, x, k) then [x] else [];
    var rest := TieClass(ys[1..], le, k);
    calc {
      TieClass(Insert(x, ys, le), le, k);
      { assert Insert(x, ys, le) == r; }
      TieClass(r, le, k);
      { assert r[0] == ys[0] && r[1..] == ins; }
      t0 + TieClass(ins, le, k);
      t0 + (tx + rest);
      { if t0 == [] { assert t0 + (tx + rest) == tx + rest; } else { assert tx == []; } }
      tx + (t0 + rest);
      tx + TieClass(ys, le, k);
    }
  }

  /** Two elements in strict order cannot both compare equal to a third. */
  lemma NotBothTied<T(!new)>(le: (T, T) -> bool, x: T, y: T, k: T)
    requires TotalPreorder(le) && !le(x, y)
    ensures !Tied(le, x, k) || !Tied(le, y, k)
  {
  }

  /** Stability: sorting does not reorder elements that compare equal. */
  lemma {:induction false} SortByStable<T(!new)>(s: seq<T>, le: (T, T) -> bool, k: T)
    requires TotalPreorder(le)
    ensures TieClass(SortBy(s, le), le, k) == TieClass(s, le, k)
  {
    if s != [] {
      SortByStable(s[1..], le, k);
      InsertTieClass(s[0], SortBy(s[1..], le), le, k);
    }
  }

  /** Every element of `s` is related by `lt` to every later one. */
  ghost predicate ChainedBy<T>(s: seq<T>, lt: (T, T) -> bool)
  {
    forall a, b :: 0 <= a < b < |s| ==> lt(s[a], s[b])
  }

  /** `x` occurs in `t` somewhere before an occurrence of `y`. */
  ghost predicate Precedes<T>(t: seq<T>, x: T, y: T)
  {
    exists p, q :: 0 <= p < q < |t| && t[p] == x && t[q] == y
  }

  /** A tie class is a subsequence, so it keeps any strict order the whole sequence has. */
  lemma {:induction false} TieClassKeepsOrder<T>(s: seq<T>, le: (T, T) -> bool, k: T, lt: (T, T) -> bool)
    requires ChainedBy(s, lt)
    ensures ChainedBy(TieClass(s, le, k), lt)
  {
    if s != [] {
      TieClassKeepsOrder(s[1..], le, k, lt);
      var rest := TieClass(s[1..], le, k);
      forall x | x in rest ensures lt(s[0], x) {
        var b :| 0 <= b < |s[1..]| && s[1..][b] == x;
        assert s[b + 1] == x;
      }
      var t := TieClass(s, le, k);
      if Tied(le, s[0], k) {
        assert t == [s[0]] + rest;
        forall a, b | 0 <= a < b < |t| ensures lt(t[a], t[b]) {
          if a == 0 {
            assert t[b] == rest[b - 1] && rest[b - 1] in rest;
          } else {
            assert t[a] == rest[a - 1] && t[b] == rest[b - 1];
          }
        }
      } else {
        assert t == rest;
      }
    }
  }

  /** Sorting keeps any strict order the input has among elements that compare equal. */
  lemma {:induction false} SortByKeepsChainOnTies<T(!new)>(s: seq<T>, le: (T, T) -> bool, lt: (T, T) -> bool, i: nat, j: nat)
    requires TotalPreorder(le) && ChainedBy(s, lt)
    requires i < j < |SortBy(s, le)| && Tied(le, SortBy(s, le)[i], SortBy(s, le)[j])
    ensures lt(SortBy(s, le)[i], SortBy(s, le)[j])
  {
    var r := SortBy(s, le);
    var k := r[i];
    TiedPositions(r, le, i, j);
    SortByStable(s, le, k);
    TieClassKeepsOrder(s, le, k, lt);
    var t := TieClass(s, le, k);
    var p, q :| 0 <= p < q < |t| && t[p] == r[i] && t[q] == r[j];
  }

  /** Two tied elements of `s` appear in their tie class in the order they have in `s`. */
  lemma {:induction false} TiedPositions<T(!new)>(s: seq<T>, le: (T, T) -> bool, i: nat, j: nat)
    requires TotalPreorder(le)
    requires i < j < |s| && Tied(le, s[i], s[j])
    ensures Precedes(TieClass(s, le, s[i]), s[i], s[j])
  {
    var k := s[i];
    var t := TieClass(s, le, k);
    if i == 0 {
      assert Tied(le, k, k);
      var rest := TieClass(s[1..], le, k);
      assert t == [k] + rest;
      InTieClass(s[1..], le, k, j - 1);
      var q' :| 0 <= q' < |rest| && rest[q'] == s[j];
      var p, q := 0, q' + 1;
      assert 0 <= p < q < |t| && t[p] == s[i] && t[q] == s[j];
    } else {
      assert s[1..][i - 1] == k && s[1..][j - 1] == s[j];
      TiedPositions(s[1..], le, i - 1, j - 1);
      var rest := TieClass(s[1..], le, k);
      assert Precedes(rest, k, s[j]);
      var p', q' :| 0 <= p' < q' < |rest| && rest[p'] == k && rest[q'] == s[j];
      if Tied(le, s[0], k) {
        assert t == [s[0]] + rest;
        var p, q := p' + 1, q' + 1;
        assert 0 <= p < q < |t| && t[p] == s[i] && t[q] == s[j];
      } else {
        assert t == rest;
        assert 0 <= p' < q' < |t| && t[p'] == s[i] && t[q'] == s[j];
      }
    }
  }

  lemma {:induction false} InTieClass<T>(s: seq<T>, le: (T, T) -> bool, k: T, j: nat)
    requires j < |s| && Tied(le, s[j], k)
    ensures exists q :: 0 <= q < |TieClass(s, le, k)| && TieClass(s, le, k)[q] == s[j]
  {
    var t := TieClass(s, le, k);
    if j == 0 {
      assert t[0] == s[0];
    } else {
      assert s[1..][j - 1] == s[j];
      InTieClass(s[1..], le, k, j - 1);
      var rest := TieClass(s[1..], le, k);
      var q' :| 0 <= q' < |rest| && rest[q'] == s[j];
      if Tied(le, s[0], k) {
        assert t == [s[0]] + rest;
        assert t[q' + 1] == s[j];
      } else {
        assert t == rest;
        assert t[q'] == s[j];
      }
    }
  }

  /** Code-point order on strings is a total preorder, so `SortBy(s, StrLe)` is the
      default `sort()` of an array of strings. */
  lemma StrLeTotalPreorder()
    ensures TotalPreorder(StrLe)
  {
    forall a, b ensures StrLe(a, b) || StrLe(b, a) { StrLeTotal(a, b); }
    forall a, b, c | StrLe(a, b) && StrLe(b, c) ensures StrLe(a, c) { StrLeTransitive(a, b, c); }
  }

  /** No element occurs twice. */
  ghost predicate Distinct<T>(s: seq<T>)
  {
    forall i, j :: 0 <= i < j < |s| ==> s[i] != s[j]
  }

  /** Distinctness depends only on the multiset of elements. */
  lemma {:induction false} DistinctMultiset<T>(s: seq<T>)
    ensures Distinct(s) <==> forall x :: multiset(s)[x] <= 1
  {
    if s != [] {
      DistinctMultiset(s[1..]);
      assert s == [s[0]] + s[1..];
      assert multiset(s) == multiset{s[0]} + multiset(s[1..]);
      if Distinct(s) {
        assert s[0] !in s[1..] by {
          forall j | 0 <= j < |s[1..]| ensures s[1..][j] != s[0] { assert s[1..][j] == s[j + 1]; }
        }
        assert Distinct(s[1..]) by {
          forall i, j | 0 <= i < j < |s[1..]| ensures s[1..][i] != s[1..][j] {
            assert s[1..][i] == s[i + 1] && s[1..][j] == s[j + 1];
          }
        }
      }
      if forall x :: multiset(s)[x] <= 1 {
        assert multiset(s)[s[0]] <= 1;
        assert s[0] !in multiset(s[1..]);
        assert forall x :: multiset(s[1..])[x] <= multiset(s)[x];
        forall i, j | 0 <= i < j < |s| ensures s[i] != s[j] {
          assert s[j] == s[1..][j - 1];
          if i == 0 {
            assert s[j] in multiset(s[1..]);
          } else {
            assert s[i] == s[1..][i - 1];
          }
        }
      }
    }
  }

  /** Sorting keeps a duplicate-free sequence duplicate-free. */
  lemma SortByDistinct<T>(s: seq<T>, le: (T, T) -> bool)
    requires Distinct(s)
    ensures Distinct(SortBy(s, le))
  {
    DistinctMultiset(s);
    DistinctMultiset(SortBy(s, le));
  }

  /** Filtering a list without duplicates leaves none. */
  lemma {:induction false} FilterDistinct<T>(s: seq<T>, p: T -> bool)
    requires Distinct(s)
    ensures Distinct(Filter(s, p))
  {
    if s != [] {
      FilterDistinct(s[1..], p);
      forall k | 0 <= k < |s[1..]| ensures s[1..][k] != s[0] {
        assert s[1..][k] == s[k + 1];
      }
      var rest := Filter(s[1..], p);
      assert s[0] !in rest;
      if p(s[0]) {
        forall i, j | 0 <= i < j < |[s[0]] + rest| ensures ([s[0]] + rest)[i] != ([s[0]] + rest)[j] {
          if i == 0 { assert ([s[0]] + rest)[j] in rest; }
        }
      }
    }
  }

  /** `Insert` puts `x` right after the leading elements it is greater than. */
  lemma {:induction false} InsertAfter<T>(x: T, ps: seq<T>, zs: seq<T>, le: (T, T) -> bool)
    requires forall y :: y in ps ==> !le(x, y)
    requires zs == [] || le(x, zs[0])
    ensures Insert(x, ps + zs, le) == ps + [x] + zs
  {
    if ps == [] {
      assert ps + zs == zs;
    } else {
      assert (ps + zs)[1..] == ps[1..] + zs;
      InsertAfter(x, ps[1..], zs, le);
      assert ps == [ps[0]] + ps[1..];
    }
  }

  /** A filter keeps a sorted sequence sorted. */
  lemma {:induction false} FilterSorted<T>(s: seq<T>, p: T -> bool, le: (T, T) -> bool)
    requires SortedBy(s, le)
    ensures SortedBy(Filter(s, p), le)
  {
    if s != [] {
      assert SortedBy(s[1..], le) by {
        forall i, j | 0 <= i < j < |s[1..]| ensures le(s[1..][i], s[1..][j]) {
          assert s[1..][i] == s[i + 1] && s[1..][j] == s[j + 1];
        }
      }
      FilterSorted(s[1..], p, le);
      var rest := Filter(s[1..], p);
      if p(s[0]) {
        var r := [s[0]] + rest;
        forall i, j | 0 <= i < j < |r| ensures le(r[i], r[j]) {
          if i == 0 {
            assert r[j] in rest;
            var k :| 0 <= k < |s[1..]| && s[1..][k] == r[j];
            assert s[k + 1] == r[j];
          } else {
            assert r[i] == rest[i - 1] && r[j] == rest[j - 1];
          }
        }
      }
    }
  }
}
