/** Python's ordering of strings (code point by code point) and of
    `(str, str)` tuples, and `sorted` over them. The fingerprint is built from
    sorted data, so that it does not depend on the order the data came in. */
module Order {

  /** `a <= b` on Python strings: `a` is a prefix of `b`, or at the first
      position where they differ `a` has the smaller character. */
  function StrLe(a: string, b: string): (r: bool)
    ensures r <==> a <= b || exists i :: 0 <= i < |a| && i < |b| && a[..i] == b[..i] && a[i] < b[i]
  {
    if a == [] then true
    else if b == [] then false
    else if a[0] != b[0] then
      assert a[..0] == b[..0];
      a[0] < b[0]
    else
      var r := StrLe(a[1..], b[1..]);
      assert a <= b <==> a[1..] <= b[1..];
      assert (exists i :: 0 <= i < |a| && i < |b| && a[..i] == b[..i] && a[i] < b[i]) <==>
        (exists j :: 0 <= j < |a[1..]| && j < |b[1..]| && a[1..][..j] == b[1..][..j] && a[1..][j] < b[1..][j]) by {
        forall i | 0 <= i < |a| && i < |b| && a[..i] == b[..i] && a[i] < b[i]
          ensures 0 <= i - 1 < |a[1..]| && i - 1 < |b[1..]| && a[1..][..i - 1] == b[1..][..i - 1] && a[1..][i - 1] < b[1..][i - 1]
        {
          assert i != 0;
          assert a[1..][..i - 1] == a[..i][1..];
          assert b[1..][..i - 1] == b[..i][1..];
        }
        forall j | 0 <= j < |a[1..]| && j < |b[1..]| && a[1..][..j] == b[1..][..j] && a[1..][j] < b[1..][j]
          ensures 0 <= j + 1 < |a| && j + 1 < |b| && a[..j + 1] == b[..j + 1] && a[j + 1] < b[j + 1]
        {
          assert a[..j + 1] == [a[0]] + a[1..][..j];
          assert b[..j + 1] == [b[0]] + b[1..][..j];
        }
      }
      r
  }

  /** `p <= q` on Python tuples of two strings. */
  function PairLe(p: (string, string), q: (string, string)): (r: bool)
    ensures p == q ==> r
    ensures StrLe(p.0, q.0) && !StrLe(q.0, p.0) ==> r
    ensures StrLe(q.0, p.0) && !StrLe(p.0, q.0) ==> !r
  {
    if p.0 == q.0 then StrLe(p.1, q.1) else StrLe(p.0, q.0)
  }

  lemma {:induction false} StrLeTotal(a: string, b: string)
    ensures StrLe(a, b) || StrLe(b, a)
  {
    if a != [] && b != [] && a[0] == b[0] { StrLeTotal(a[1..], b[1..]); }
  }

  lemma {:induction false} StrLeAntisymmetric(a: string, b: string)
    requires StrLe(a, b) && StrLe(b, a)
    ensures a == b
  {
    if a != [] && b != [] {
      StrLeAntisymmetric(a[1..], b[1..]);
      assert a == [a[0]] + a[1..] && b == [b[0]] + b[1..];
    }
  }

  lemma {:induction false} StrLeTransitive(a: string, b: string, c: string)
    requires StrLe(a, b) && StrLe(b, c)
    ensures StrLe(a, c)
  {
    if a != [] && b != [] && c != [] && a[0] == b[0] && b[0] == c[0] {
      StrLeTransitive(a[1..], b[1..], c[1..]);
    }
  }

  lemma PairLeIsTotalOrder()
    ensures TotalOrder(PairLe)
  {
    forall p: (string, string), q: (string, string) ensures PairLe(p, q) || PairLe(q, p) {
      StrLeTotal(p.0, q.0);
      StrLeTotal(p.1, q.1);
    }
    forall p: (string, string), q: (string, string) | PairLe(p, q) && PairLe(q, p) ensures p == q {
      if p.0 == q.0 { StrLeAntisymmetric(p.1, q.1); } else { StrLeAntisymmetric(p.0, q.0); }
    }
    forall p: (string, string), q: (string, string), r: (string, string) | PairLe(p, q) && PairLe(q, r)
      ensures PairLe(p, r)
    {
      if p.0 == q.0 && q.0 == r.0 {
        StrLeTransitive(p.1, q.1, r.1);
      } else if p.0 == q.0 {
        assert StrLe(q.0, r.0);
      } else if q.0 == r.0 {
        assert StrLe(p.0, q.0);
      } else {
        StrLeTransitive(p.0, q.0, r.0);
        if p.0 == r.0 { StrLeAntisymmetric(p.0, q.0); }
      }
    }
  }

  lemma StrLeIsTotalOrder()
    ensures TotalOrder(StrLe)
  {
    forall a: string, b: string ensures StrLe(a, b) || StrLe(b, a) { StrLeTotal(a, b); }
    forall a: string, b: string | StrLe(a, b) && StrLe(b, a) ensures a == b { StrLeAntisymmetric(a, b); }
    forall a: string, b: string, c: string | StrLe(a, b) && StrLe(b, c) ensures StrLe(a, c) {
      StrLeTransitive(a, b, c);
    }
  }

  ghost predicate TotalOrder<T(!new)>(le: (T, T) -> bool) {
    && (forall x, y :: le(x, y) || le(y, x))
    && (forall x, y :: le(x, y) && le(y, x) ==> x == y)
    && (forall x, y, z :: le(x, y) && le(y, z) ==> le(x, z))
  }

  ghost predicate Sorted<T>(s: seq<T>, le: (T, T) -> bool) {
    forall i, j :: 0 <= i < j < |s| ==> le(s[i], s[j])
  }

  function Insert<T>(x: T, s: seq<T>, le: (T, T) -> bool): (r: seq<T>)
    ensures multiset(r) == multiset(s) + multiset{x}
  {
    if s == [] then [x]
    else if le(x, s[0]) then [x] + s
    else
      assert s == [s[0]] + s[1..];
      [s[0]] + Insert(x, s[1..], le)
  }

  /** Python's `sorted`, as an insertion sort. */
  function Sort<T>(s: seq<T>, le: (T, T) -> bool): (r: seq<T>)
    ensures multiset(r) == multiset(s)
  {
    if s == [] then []
    else
      assert s == [s[0]] + s[1..];
      Insert(s[0], Sort(s[1..], le), le)
  }

  lemma {:induction false} InsertSorted<T(!new)>(x: T, s: seq<T>, le: (T, T) -> bool)
    requires TotalOrder(le) && Sorted(s, le)
    ensures Sorted(Insert(x, s, le), le)
  {
    if s != [] && !le(x, s[0]) {
      InsertSorted(x, s[1..], le);
      var t := Insert(x, s[1..], le);
      forall j | 0 <= j < |t| ensures le(s[0], t[j]) {
        assert t[j] in multiset(t);
        if t[j] != x {
          assert t[j] in multiset(s[1..]);
          var k :| 0 <= k < |s[1..]| && s[1..][k] == t[j];
          assert s[k + 1] == t[j];
        }
      }
    }
  }

  lemma {:induction false} SortSorted<T(!new)>(s: seq<T>, le: (T, T) -> bool)
    requires TotalOrder(le)
    ensures Sorted(Sort(s, le), le)
  {
    if s != [] {
      SortSorted(s[1..], le);
      InsertSorted(s[0], Sort(s[1..], le), le);
    }
  }

  lemma SortedTail<T>(s: seq<T>, le: (T, T) -> bool)
    requires s != [] && Sorted(s, le)
    ensures Sorted(s[1..], le)
  {
    forall i, j | 0 <= i < j < |s[1..]| ensures le(s[1..][i], s[1..][j]) { assert le(s[i + 1], s[j + 1]); }
  }

  /** Two sorted arrangements of one multiset start with the same element. */
  lemma SortedHeads<T(!new)>(a: seq<T>, b: seq<T>, le: (T, T) -> bool)
    requires TotalOrder(le) && Sorted(a, le) && Sorted(b, le)
    requires a != [] && multiset(a) == multiset(b)
    ensures b != [] && a[0] == b[0]
  {
    assert a[0] in multiset(b);
    var i :| 0 <= i < |b| && b[i] == a[0];
    assert b[0] in multiset(a);
    var j :| 0 <= j < |a| && a[j] == b[0];
    assert le(b[0], a[0]) by { if i > 0 { assert le(b[0], b[i]); } }
    assert le(a[0], b[0]) by { if j > 0 { assert le(a[0], a[j]); } }
  }

  /** Under a total order there is only one sorted arrangement of a multiset. */
  lemma {:induction false} SortedUnique<T(!new)>(a: seq<T>, b: seq<T>, le: (T, T) -> bool)
    requires TotalOrder(le) && Sorted(a, le) && Sorted(b, le)
    requires multiset(a) == multiset(b)
    ensures a == b
  {
    if a == [] {
      assert |multiset(b)| == 0;
    } else {
      SortedHeads(a, b, le);
      assert a == [a[0]] + a[1..] && b == [b[0]] + b[1..];
      calc {
        multiset(a[1..]);
        multiset(a) - multiset{a[0]};
        multiset(b) - multiset{b[0]};
        multiset(b[1..]);
      }
      SortedTail(a, le);
      SortedTail(b, le);
      SortedUnique(a[1..], b[1..], le);
    }
  }

  /** What `sorted` returns depends only on the multiset of its input. */
  lemma SortDependsOnlyOnMultiset<T(!new)>(a: seq<T>, b: seq<T>, le: (T, T) -> bool)
    requires TotalOrder(le)
    requires multiset(a) == multiset(b)
    ensures Sort(a, le) == Sort(b, le)
  {
    SortSorted(a, le);
    SortSorted(b, le);
    SortedUnique(Sort(a, le), Sort(b, le), le);
  }
}
