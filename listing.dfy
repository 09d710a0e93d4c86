/** Owner-filtered, sorted listings of a table, as the `find(...).sort(...)`
    queries of the routes return them. */
module Listing {
  import opened Common

  /** Binary string order: `a` sorts no later than `b` when it is a prefix of
      `b` or has the smaller character at the first position where they differ. */
  predicate StrLe(a: string, b: string)
  {
    |a| == 0 || (|b| > 0 && (a[0] < b[0] || (a[0] == b[0] && StrLe(a[1..], b[1..]))))
  }

  lemma {:induction false} StrLeTotal(a: string, b: string)
    ensures StrLe(a, b) || StrLe(b, a)
  {
    if |a| > 0 && |b| > 0 && a[0] == b[0] {
      StrLeTotal(a[1..], b[1..]);
    }
  }

  lemma {:induction false} StrLeTransitive(a: string, b: string, c: string)
    requires StrLe(a, b) && StrLe(b, c)
    ensures StrLe(a, c)
  {
    if |a| > 0 && a[0] == b[0] && b[0] == c[0] {
      StrLeTransitive(a[1..], b[1..], c[1..]);
    }
  }

  lemma {:induction false} StrLeAntisymmetric(a: string, b: string)
    requires StrLe(a, b) && StrLe(b, a)
    ensures a == b
  {
    if |a| > 0 {
      StrLeAntisymmetric(a[1..], b[1..]);
      assert a == [a[0]] + a[1..] && b == [b[0]] + b[1..];
    }
  }

  /** `le` orders every pair and is transitive: a sort key, ties allowed. */
  ghost predicate TotalPreorder<T(!new)>(le: (T, T) -> bool)
  {
    && (forall a, b :: le(a, b) || le(b, a))
    && (forall a, b, c :: le(a, b) && le(b, c) ==> le(a, c))
  }

  ghost predicate Sorted<T>(s: seq<T>, le: (T, T) -> bool)
  {
    forall i, j :: 0 <= i < j < |s| ==> le(s[i], s[j])
  }

  ghost predicate Distinct<T>(s: seq<T>)
  {
    forall i, j :: 0 <= i < j < |s| ==> s[i] != s[j]
  }

  /** Places `x` before the first element it sorts no later than. */
  function Insert<T>(x: T, s: seq<T>, le: (T, T) -> bool): (r: seq<T>)
    ensures multiset(r) == multiset(s) + multiset{x}
  {
    if |s| == 0 || le(x, s[0]) then [x] + s
    else
      assert s == [s[0]] + s[1..];
      [s[0]] + Insert(x, s[1..], le)
  }

  lemma {:induction false} InsertSorted<T(!new)>(x: T, s: seq<T>, le: (T, T) -> bool)
    requires TotalPreorder(le) && Sorted(s, le)
    ensures Sorted(Insert(x, s, le), le)
  {
    if |s| == 0 || le(x, s[0]) {
      var r := [x] + s;
      forall i, j | 0 <= i < j < |r| ensures le(r[i], r[j]) {
        if i == 0 && j > 1 {
          assert le(x, s[0]) && le(s[0], s[j - 1]);
        }
      }
    } else {
      var t := Insert(x, s[1..], le);
      InsertSorted(x, s[1..], le);
      forall k | 0 <= k < |t| ensures le(s[0], t[k]) {
        assert t[k] in multiset(t);
        if t[k] != x {
          assert t[k] in s[1..];
          var m :| 0 <= m < |s[1..]| && s[1..][m] == t[k];
          assert s[1..][m] == s[m + 1];
        }
      }
      var r := [s[0]] + t;
      forall i, j | 0 <= i < j < |r| ensures le(r[i], r[j]) {
        if i > 0 {
          assert r[i] == t[i - 1] && r[j] == t[j - 1];
        } else {
          assert r[j] == t[j - 1];
        }
      }
    }
  }

  lemma {:induction false} InsertDistinct<T>(x: T, s: seq<T>, le: (T, T) -> bool)
    requires Distinct(s) && x !in s
    ensures Distinct(Insert(x, s, le))
  {
    if |s| == 0 || le(x, s[0]) {
      var r := [x] + s;
      forall i, j | 0 <= i < j < |r| ensures r[i] != r[j] {
        if i == 0 { assert r[j] == s[j - 1]; }
      }
    } else {
      var t := Insert(x, s[1..], le);
      assert Distinct(s[1..]);
      InsertDistinct(x, s[1..], le);
      assert s[0] !in s[1..] by {
        forall m | 0 <= m < |s[1..]| ensures s[1..][m] != s[0] {
          assert s[1..][m] == s[m + 1];
        }
      }
      assert s[0] !in multiset(t);
      var r := [s[0]] + t;
      forall i, j | 0 <= i < j < |r| ensures r[i] != r[j] {
        if i == 0 { assert r[j] == t[j - 1]; assert r[j] in t; }
        else { assert r[i] == t[i - 1] && r[j] == t[j - 1]; }
      }
    }
  }

  predicate IsLeast(k: Id, ids: set<Id>)
  {
    k in ids && forall j :: j in ids ==> k <= j
  }

  lemma {:induction false} LeastExists(ids: set<Id>)
    requires ids != {}
    ensures exists k :: IsLeast(k, ids)
    decreases ids
  {
    var x :| x in ids;
    if ids == {x} {
      assert IsLeast(x, ids);
    } else {
      LeastExists(ids - {x});
      var k :| IsLeast(k, ids - {x});
      var least := if x < k then x else k;
      forall j | j in ids ensures least <= j {
        if j != x { assert j in ids - {x}; }
      }
      assert IsLeast(least, ids);
    }
  }

  /** The smallest key of a non-empty key set. */
  function Least(ids: set<Id>): (k: Id)
    requires ids != {}
    ensures k in ids && forall j :: j in ids ==> k <= j
  {
    LeastExists(ids);
    var k :| k in ids && IsLeast(k, ids);
    k
  }

  /** The documents of `m` under the keys `ids` that `keep` accepts, each once,
      in `le` order. Keys are visited smallest first; the order among entries
      that `le` ties is not promised. */
  function Select<T(!new)>(m: map<Id, T>, keep: T -> bool, le: (Entry<T>, Entry<T>) -> bool, ids: set<Id>): (r: seq<Entry<T>>)
    requires ids <= m.Keys
    requires TotalPreorder(le)
    ensures Sorted(r, le)
    ensures Distinct(r)
    ensures forall e :: e in r <==> e.id in ids && m[e.id] == e.doc && keep(e.doc)
    decreases ids
  {
    if ids == {} then []
    else
      var k := Least(ids);
      var rest := Select(m, keep, le, ids - {k});
      if keep(m[k]) then
        var x := Entry(k, m[k]);
        InsertSorted(x, rest, le);
        InsertDistinct(x, rest, le);
        InsertMembers(x, rest, le);
        Insert(x, rest, le)
      else rest
  }

  lemma InsertMembers<T>(x: T, s: seq<T>, le: (T, T) -> bool)
    ensures forall e :: e in Insert(x, s, le) <==> e == x || e in s
  {
    var r := Insert(x, s, le);
    assert forall e :: e in r <==> e in multiset(r);
  }

  /** Owned entries of a listing have pairwise different ids. */
  lemma DistinctIds<T>(m: map<Id, T>, r: seq<Entry<T>>)
    requires Distinct(r)
    requires forall e :: e in r ==> e.id in m && m[e.id] == e.doc
    ensures forall i, j :: 0 <= i < j < |r| ==> r[i].id != r[j].id
  {
    forall i, j | 0 <= i < j < |r| ensures r[i].id != r[j].id {
      assert r[i] in r && r[j] in r;
    }
  }
}
