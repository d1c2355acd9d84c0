// Texts by code point, and sorting by a text key.
module TextOrder {
  import opened Numerals

  /* ---------- Order of texts ---------- */

  lemma {:induction false} TextOrderIsTotal(a: string, b: string)
    ensures a == b || TextLess(a, b) || TextLess(b, a)
    ensures !(TextLess(a, b) && TextLess(b, a)) && !TextLess(a, a)
  {
    if a != "" && b != "" {
      TextOrderIsTotal(a[1..], b[1..]);
      if a[0] == b[0] && a[1..] == b[1..] {
        assert a == [a[0]] + a[1..] && b == [b[0]] + b[1..];
      }
    }
    if a != "" {
      TextOrderIsTotal(a[1..], a[1..]);
    }
  }

  lemma {:induction false} TextOrderIsTransitive(a: string, b: string, c: string)
    requires TextLess(a, b) && TextLess(b, c)
    ensures TextLess(a, c)
  {
    if a != "" && a[0] == b[0] && b[0] == c[0] {
      TextOrderIsTransitive(a[1..], b[1..], c[1..]);
    }
  }

  lemma {:induction false} CommonPrefix(prefix: string, a: string, b: string)
    ensures TextLess(prefix + a, prefix + b) == TextLess(a, b)
  {
    if prefix == "" {
      assert prefix + a == a && prefix + b == b;
    } else {
      CommonPrefix(prefix[1..], a, b);
      assert (prefix + a)[1..] == prefix[1..] + a && (prefix + b)[1..] == prefix[1..] + b;
    }
  }

  // sorted(..., key=...): stable insertion.
  function Insert<T>(key: T -> string, x: T, sorted: seq<T>): seq<T> {
    if sorted == [] || TextLess(key(x), key(sorted[0])) then [x] + sorted
    else [sorted[0]] + Insert(key, x, sorted[1..])
  }

  function SortBy<T>(key: T -> string, items: seq<T>): seq<T> {
    if items == [] then [] else Insert(key, items[|items| - 1], SortBy(key, items[..|items| - 1]))
  }

  ghost predicate Ascending<T(!new)>(key: T -> string, s: seq<T>) {
    forall i, j :: 0 <= i < j < |s| ==> TextLess(key(s[i]), key(s[j]))
  }

  ghost predicate DistinctKeys<T(!new)>(key: T -> string, s: seq<T>) {
    forall i, j :: 0 <= i < j < |s| ==> key(s[i]) != key(s[j])
  }

  ghost predicate SameElements<T(!new)>(a: seq<T>, b: seq<T>) {
    forall x :: x in a <==> x in b
  }

  lemma {:induction false} InsertElements<T(!new)>(key: T -> string, x: T, s: seq<T>)
    ensures forall y :: y in Insert(key, x, s) <==> y == x || y in s
  {
    if s != [] && !TextLess(key(x), key(s[0])) {
      InsertElements(key, x, s[1..]);
      assert s == [s[0]] + s[1..];
    }
  }

  lemma {:induction false} SortElements<T(!new)>(key: T -> string, s: seq<T>)
    ensures SameElements(SortBy(key, s), s)
  {
    if s != [] {
      SortElements(key, s[..|s| - 1]);
      InsertElements(key, s[|s| - 1], SortBy(key, s[..|s| - 1]));
      assert s == s[..|s| - 1] + [s[|s| - 1]];
    }
  }

  lemma {:induction false} InsertLength<T>(key: T -> string, x: T, s: seq<T>)
    ensures |Insert(key, x, s)| == |s| + 1
  {
    if s != [] && !TextLess(key(x), key(s[0])) {
      InsertLength(key, x, s[1..]);
    }
  }

  lemma {:induction false} SortLength<T>(key: T -> string, s: seq<T>)
    ensures |SortBy(key, s)| == |s|
  {
    if s != [] {
      SortLength(key, s[..|s| - 1]);
      InsertLength(key, s[|s| - 1], SortBy(key, s[..|s| - 1]));
    }
  }

  lemma {:induction false} InsertKeepsAscending<T(!new)>(key: T -> string, x: T, s: seq<T>)
    requires Ascending(key, s) && forall y :: y in s ==> key(y) != key(x)
    ensures Ascending(key, Insert(key, x, s))
  {
    if s == [] {
    } else if TextLess(key(x), key(s[0])) {
      forall j | 0 <= j < |s| ensures TextLess(key(x), key(s[j])) {
        if j > 0 {
          TextOrderIsTransitive(key(x), key(s[0]), key(s[j]));
        }
      }
    } else {
      TextOrderIsTotal(key(x), key(s[0]));
      InsertKeepsAscending(key, x, s[1..]);
      InsertElements(key, x, s[1..]);
      assert s == [s[0]] + s[1..];
      forall y | y in Insert(key, x, s[1..]) ensures TextLess(key(s[0]), key(y)) {
        if y != x {
          var k :| 0 <= k < |s[1..]| && s[1..][k] == y;
          assert s[k + 1] == y;
        }
      }
    }
  }

  // Items with different keys are sorted into strictly ascending order.
  lemma {:induction false} SortIsAscending<T(!new)>(key: T -> string, s: seq<T>)
    requires DistinctKeys(key, s)
    ensures Ascending(key, SortBy(key, s)) && SameElements(SortBy(key, s), s)
  {
    SortElements(key, s);
    if s != [] {
      var before, last := s[..|s| - 1], s[|s| - 1];
      assert s == before + [last];
      SortIsAscending(key, before);
      forall y | y in SortBy(key, before) ensures key(y) != key(last) {
        assert y in before;
      }
      InsertKeepsAscending(key, last, SortBy(key, before));
    }
  }

  // There is only one ascending sequence of given elements.
  lemma {:induction false} OneAscendingOrder<T(!new)>(key: T -> string, a: seq<T>, b: seq<T>)
    requires Ascending(key, a) && Ascending(key, b) && SameElements(a, b)
    ensures a == b
  {
    SameEmptiness(a, b);
    if a != [] {
      assert a[0] in b && b[0] in a;
      FirstIsLeast(key, a, b[0]);
      FirstIsLeast(key, b, a[0]);
      TextOrderIsTotal(key(a[0]), key(b[0]));
      assert a[0] == b[0];
      TailHolds(key, a);
      TailHolds(key, b);
      OneAscendingOrder(key, a[1..], b[1..]);
      assert a == [a[0]] + a[1..] && b == [b[0]] + b[1..];
    }
  }

  lemma SameEmptiness<T(!new)>(a: seq<T>, b: seq<T>)
    requires SameElements(a, b)
    ensures a == [] <==> b == []
  {
    assert a != [] ==> a[0] in b;
    assert forall x :: x in b ==> x in a;
    assert b != [] ==> exists x :: x in b by {
      if b != [] {
        assert b[0] in b;
      }
    }
  }

  lemma FirstIsLeast<T(!new)>(key: T -> string, s: seq<T>, x: T)
    requires Ascending(key, s) && x in s
    ensures x == s[0] || TextLess(key(s[0]), key(x))
  {
    var k :| 0 <= k < |s| && s[k] == x;
  }

  lemma TailHolds<T(!new)>(key: T -> string, a: seq<T>)
    requires a != [] && Ascending(key, a)
    ensures forall x :: x in a[1..] <==> x in a && x != a[0]
  {
    TextOrderIsTotal(key(a[0]), key(a[0]));
    assert a == [a[0]] + a[1..];
    forall x | x in a[1..] ensures x != a[0] {
      var k :| 0 <= k < |a[1..]| && a[1..][k] == x;
      assert a[k + 1] == x;
    }
  }

  predicate EndsWith(text: string, ending: string) {
    |ending| <= |text| && text[|text| - |ending|..] == ending
  }
}
