/** Stable sorting by (entity type, broker id), the order of Python's sorted() on such keys. */
module Sorting {
  datatype Kind = OrderKind | PositionKind

  datatype Key = Key(kind: Kind, id: string)

  /** Lexicographic order by code point. */
  predicate TextAtMost(a: string, b: string) {
    a == [] || (b != [] && (a[0] < b[0] || (a[0] == b[0] && TextAtMost(a[1..], b[1..]))))
  }

  lemma {:induction false} TextOrder(a: string, b: string)
    ensures TextAtMost(a, b) || TextAtMost(b, a)
    ensures TextAtMost(a, b) && TextAtMost(b, a) ==> a == b
  {
    if a != [] && b != [] {
      TextOrder(a[1..], b[1..]);
      assert a == [a[0]] + a[1..] && b == [b[0]] + b[1..];
    }
  }

  lemma {:induction false} TextTransitive(a: string, b: string, c: string)
    requires TextAtMost(a, b) && TextAtMost(b, c)
    ensures TextAtMost(a, c)
  {
    if a != [] && a[0] == b[0] && b[0] == c[0] { TextTransitive(a[1..], b[1..], c[1..]); }
  }

  predicate AtMost(a: Key, b: Key) {
    if a.kind == b.kind then TextAtMost(a.id, b.id) else a.kind.OrderKind?
  }

  lemma KeyOrder(a: Key, b: Key)
    ensures AtMost(a, b) || AtMost(b, a)
    ensures AtMost(a, b) && AtMost(b, a) ==> a == b
  {
    TextOrder(a.id, b.id);
  }

  lemma KeyTransitive(a: Key, b: Key, c: Key)
    requires AtMost(a, b) && AtMost(b, c)
    ensures AtMost(a, c)
  {
    if a.kind == b.kind == c.kind { TextTransitive(a.id, b.id, c.id); }
  }

  /** Puts x after every element whose key is at most its own. */
  function Insert<T>(s: seq<T>, x: T, key: T -> Key): seq<T> {
    if s == [] || AtMost(key(s[|s| - 1]), key(x)) then s + [x]
    else Insert(s[..|s| - 1], x, key) + [s[|s| - 1]]
  }

  function Sort<T>(s: seq<T>, key: T -> Key): seq<T> {
    if s == [] then [] else Insert(Sort(s[..|s| - 1], key), s[|s| - 1], key)
  }

  predicate Ordered<T>(s: seq<T>, key: T -> Key) {
    forall i, k :: 0 <= i < k < |s| ==> AtMost(key(s[i]), key(s[k]))
  }

  predicate DistinctKeys<T>(s: seq<T>, key: T -> Key) {
    forall i, k :: 0 <= i < k < |s| ==> key(s[i]) != key(s[k])
  }

  lemma {:induction false} InsertKeeps<T>(s: seq<T>, x: T, key: T -> Key)
    ensures multiset(Insert(s, x, key)) == multiset(s) + multiset{x}
  {
    hide AtMost;
    if s != [] {
      InsertKeeps(s[..|s| - 1], x, key);
      assert s == s[..|s| - 1] + [s[|s| - 1]];
    }
  }

  lemma InsertMembers<T>(s: seq<T>, x: T, key: T -> Key)
    ensures forall k :: 0 <= k < |Insert(s, x, key)| ==> Insert(s, x, key)[k] in s || Insert(s, x, key)[k] == x
  {
    InsertKeeps(s, x, key);
    forall k | 0 <= k < |Insert(s, x, key)| ensures Insert(s, x, key)[k] in s || Insert(s, x, key)[k] == x {
      assert Insert(s, x, key)[k] in multiset(Insert(s, x, key));
    }
  }

  lemma {:induction false} InsertKeepsOrder<T>(s: seq<T>, x: T, key: T -> Key)
    requires Ordered(s, key)
    ensures Ordered(Insert(s, x, key), key)
  {
    hide AtMost;
    if s != [] {
      var init, last := s[..|s| - 1], s[|s| - 1];
      KeyOrder(key(last), key(x));
      if AtMost(key(last), key(x)) {
        forall i | 0 <= i < |s| ensures AtMost(key(s[i]), key(x)) {
          if i < |s| - 1 { KeyTransitive(key(s[i]), key(last), key(x)); }
        }
      } else {
        assert init + [last] == s;
        InsertKeepsOrder(init, x, key);
        InsertMembers(init, x, key);
        InsertedBelow(init, last, Insert(init, x, key), x, key);
      }
    }
  }

  lemma InsertedBelow<T>(init: seq<T>, last: T, r: seq<T>, x: T, key: T -> Key)
    requires Ordered(init + [last], key) && AtMost(key(x), key(last)) && Ordered(r, key)
    requires forall k :: 0 <= k < |r| ==> r[k] in init || r[k] == x
    ensures Ordered(r + [last], key)
  {
    hide AtMost;
    forall k | 0 <= k < |r| ensures AtMost(key(r[k]), key(last)) {
      if r[k] in init {
        var i :| 0 <= i < |init| && init[i] == r[k];
        assert (init + [last])[i] == r[k] && (init + [last])[|init|] == last;
      }
    }
  }

  /** Sorting orders a list and loses or invents nothing. */
  lemma {:induction false} SortSorts<T>(s: seq<T>, key: T -> Key)
    ensures Ordered(Sort(s, key), key)
    ensures multiset(Sort(s, key)) == multiset(s)
  {
    if s != [] {
      var init, last := s[..|s| - 1], s[|s| - 1];
      assert s == init + [last];
      SortSorts(init, key);
      InsertKeepsOrder(Sort(init, key), last, key);
      InsertKeeps(Sort(init, key), last, key);
    }
  }

  lemma SameElements<T>(a: seq<T>, b: seq<T>)
    requires multiset(a) == multiset(b)
    ensures |a| == |b| && forall x :: x in a <==> x in b
  {
    assert |multiset(a)| == |a| && |multiset(b)| == |b|;
    forall x ensures x in a <==> x in b { assert x in a <==> x in multiset(a); }
  }

  /** Lists with the same elements, in strict order, are the same list. */
  lemma {:induction false} OrderedUnique<T>(a: seq<T>, b: seq<T>, key: T -> Key)
    requires Ordered(a, key) && Ordered(b, key) && DistinctKeys(a, key) && DistinctKeys(b, key)
    requires forall x :: x in a <==> x in b
    ensures a == b
  {
    hide AtMost;
    FirstIn(a);
    FirstIn(b);
    if a != [] {
      var x, y := a[|a| - 1], b[|b| - 1];
      assert x in b && y in a;
      KeyOrder(key(x), key(y));
      assert AtMost(key(x), key(y)) by { LastIsGreatest(b, x, key); }
      assert AtMost(key(y), key(x)) by { LastIsGreatest(a, y, key); }
      assert x == y by {
        var i :| 0 <= i < |a| && a[i] == y;
        assert i == |a| - 1;
      }
      var a', b' := a[..|a| - 1], b[..|b| - 1];
      forall z ensures z in a' <==> z in b' {
        WithoutLast(a, z, key);
        WithoutLast(b, z, key);
      }
      OrderedUnique(a', b', key);
      assert a == a' + [x] && b == b' + [y];
    }
  }

  lemma FirstIn<T>(s: seq<T>)
    ensures s == [] || s[0] in s
  {
  }

  lemma LastIsGreatest<T>(s: seq<T>, x: T, key: T -> Key)
    requires Ordered(s, key) && x in s
    ensures AtMost(key(x), key(s[|s| - 1]))
  {
    hide AtMost;
    KeyOrder(key(x), key(x));
  }

  lemma WithoutLast<T>(s: seq<T>, z: T, key: T -> Key)
    requires s != [] && DistinctKeys(s, key)
    ensures z in s[..|s| - 1] <==> z in s && z != s[|s| - 1]
  {
    if z in s && z != s[|s| - 1] {
      var i :| 0 <= i < |s| && s[i] == z;
      assert s[..|s| - 1][i] == z;
    }
  }

  lemma {:induction false} DistinctPermutes<T>(a: seq<T>, b: seq<T>, key: T -> Key)
    requires DistinctKeys(a, key) && multiset(a) == multiset(b)
    ensures DistinctKeys(b, key)
  {
    forall i, k | 0 <= i < k < |b| ensures key(b[i]) != key(b[k]) {
      SameElements(a, b);
      assert b[i] in a && b[k] in a;
      if b[i] == b[k] {
        TwiceIn(b, i, k);
        OnceIn(a, b[i], key);
      }
    }
  }

  lemma TwiceIn<T>(s: seq<T>, i: nat, k: nat)
    requires i < k < |s| && s[i] == s[k]
    ensures multiset(s)[s[i]] >= 2
  {
    assert s == s[..k] + s[k..];
    assert s[..k][i] == s[i] && s[k..][0] == s[i];
    assert s[i] in multiset(s[..k]) && s[i] in multiset(s[k..]);
  }

  lemma {:induction false} OnceIn<T>(s: seq<T>, x: T, key: T -> Key)
    requires DistinctKeys(s, key)
    ensures multiset(s)[x] <= 1
  {
    if s != [] {
      var init, last := s[..|s| - 1], s[|s| - 1];
      assert s == init + [last];
      OnceIn(init, x, key);
      forall i | 0 <= i < |init| ensures init[i] != last { assert key(s[i]) != key(s[|s| - 1]); }
      assert last !in multiset(init);
    }
  }

  /** Elements of different keys may be inserted in either order. */
  lemma {:induction false} InsertCommutes<T>(s: seq<T>, x: T, y: T, key: T -> Key)
    requires AtMost(key(x), key(y)) && !AtMost(key(y), key(x))
    ensures Insert(Insert(s, x, key), y, key) == Insert(Insert(s, y, key), x, key)
  {
    hide AtMost;
    var kx, ky := key(x), key(y);
    InsertSnoc(s, x, y, key);
    InsertSnoc(s, y, x, key);
    if s != [] {
      var init, last := s[..|s| - 1], s[|s| - 1];
      var kl := key(last);
      if AtMost(kl, kx) {
        KeyTransitive(kl, kx, ky);
      } else {
        var byX, byY := Insert(init, x, key), Insert(init, y, key);
        InsertSnoc(byX, last, y, key);
        if !AtMost(kl, ky) {
          InsertCommutes(init, x, y, key);
          InsertSnoc(byY, last, x, key);
        }
      }
    }
  }

  lemma InsertSnoc<T>(s: seq<T>, last: T, x: T, key: T -> Key)
    ensures Insert(s + [last], x, key) ==
      if AtMost(key(last), key(x)) then s + [last] + [x] else Insert(s, x, key) + [last]
  {
    hide AtMost;
    assert (s + [last])[..|s|] == s;
  }

  lemma InsertEither<T>(s: seq<T>, x: T, y: T, key: T -> Key)
    requires key(x) != key(y)
    ensures Insert(Insert(s, x, key), y, key) == Insert(Insert(s, y, key), x, key)
  {
    hide AtMost, Insert;
    KeyOrder(key(x), key(y));
    if AtMost(key(x), key(y)) { InsertCommutes(s, x, y, key); } else { InsertCommutes(s, y, x, key); }
  }

  /** Inserts a list, its last element last. */
  function InsertAll<T>(s: seq<T>, more: seq<T>, key: T -> Key): seq<T> {
    if more == [] then s else Insert(InsertAll(s, more[..|more| - 1], key), more[|more| - 1], key)
  }

  lemma {:induction false} SortConcat<T>(a: seq<T>, b: seq<T>, key: T -> Key)
    ensures Sort(a + b, key) == InsertAll(Sort(a, key), b, key)
  {
    hide Insert;
    if b == [] {
      assert a + b == a;
    } else {
      assert (a + b)[..|a + b| - 1] == a + b[..|b| - 1];
      SortConcat(a, b[..|b| - 1], key);
    }
  }

  /** An element may as well be inserted last, if no other has its key. */
  lemma {:induction false} InsertLast<T>(s: seq<T>, a: seq<T>, x: T, b: seq<T>, key: T -> Key)
    requires forall k :: 0 <= k < |b| ==> key(b[k]) != key(x)
    ensures InsertAll(s, a + [x] + b, key) == InsertAll(s, a + b + [x], key)
  {
    hide Insert;
    if b == [] {
      assert a + [x] + b == a + b + [x];
    } else {
      var init, last := b[..|b| - 1], b[|b| - 1];
      InsertLast(s, a, x, init, key);
      assert (a + [x] + b)[..|a + [x] + b| - 1] == a + [x] + init;
      assert (a + b + [x])[..|a + b|] == a + b && (a + b)[..|a + b| - 1] == a + init;
      assert (a + init + [x])[..|a + init|] == a + init;
      InsertEither(InsertAll(s, a + init, key), x, last, key);
    }
  }

  /** The order of elements with distinct keys does not matter to what inserting them makes. */
  lemma {:induction false} InsertAnyOrder<T>(s: seq<T>, a: seq<T>, b: seq<T>, key: T -> Key)
    requires DistinctKeys(a, key) && DistinctKeys(b, key) && forall x :: x in a <==> x in b
    ensures InsertAll(s, a, key) == InsertAll(s, b, key)
  {
    hide Insert;
    FirstIn(b);
    if a != [] {
      var init, x := a[..|a| - 1], a[|a| - 1];
      assert x in b;
      var i :| 0 <= i < |b| && b[i] == x;
      var left, right := b[..i], b[i + 1..];
      assert b == left + [x] + right;
      forall k | 0 <= k < |right| ensures key(right[k]) != key(x) { assert right[k] == b[i + 1 + k]; }
      InsertLast(s, left, x, right, key);
      WithoutOne(a, init, b, left, right, x, i, key);
      InsertAnyOrder(s, init, left + right, key);
      assert (left + right + [x])[..|left + right|] == left + right;
    }
  }

  lemma WithoutOne<T>(a: seq<T>, init: seq<T>, b: seq<T>, left: seq<T>, right: seq<T>, x: T, i: nat, key: T -> Key)
    requires DistinctKeys(a, key) && DistinctKeys(b, key) && forall x :: x in a <==> x in b
    requires a == init + [x] && i < |b| && left == b[..i] && right == b[i + 1..] && b[i] == x
    ensures DistinctKeys(init, key) && DistinctKeys(left + right, key) && forall z :: z in init <==> z in left + right
  {
    var both := left + right;
    forall n, k | 0 <= n < k < |init| ensures key(init[n]) != key(init[k]) { assert key(a[n]) != key(a[k]); }
    forall k | 0 <= k < |both| ensures both[k] == b[if k < i then k else k + 1] {}
    forall z ensures z in init <==> z in both {
      if z in init {
        var k :| 0 <= k < |init| && init[k] == z;
        assert a[k] == z && key(a[k]) != key(a[|init|]);
        assert z in b;
        var n :| 0 <= n < |b| && b[n] == z;
        assert both[if n < i then n else n - 1] == z;
      }
      if z in both {
        var k :| 0 <= k < |both| && both[k] == z;
        var n := if k < i then k else k + 1;
        assert b[n] == z && z in b && z in a;
        assert key(b[n]) != key(b[i]);
      }
    }
  }

  /** Texts compare by their first different character, a prefix before its continuations. */
  lemma {:induction false} TextOrderMeans(a: string, b: string)
    ensures TextAtMost(a, b) <==>
      a <= b || exists i :: 0 <= i < |a| && i < |b| && a[..i] == b[..i] && a[i] < b[i]
  {
    if a != [] && b != [] && a[0] == b[0] {
      TextOrderMeans(a[1..], b[1..]);
      assert a <= b <==> a[1..] <= b[1..];
      if TextAtMost(a[1..], b[1..]) && !(a <= b) {
        var i :| 0 <= i < |a[1..]| && i < |b[1..]| && a[1..][..i] == b[1..][..i] && a[1..][i] < b[1..][i];
        assert a[..i + 1] == [a[0]] + a[1..][..i] && b[..i + 1] == [b[0]] + b[1..][..i];
        assert a[i + 1] < b[i + 1];
      }
      if exists i :: 0 <= i < |a| && i < |b| && a[..i] == b[..i] && a[i] < b[i] {
        var i :| 0 <= i < |a| && i < |b| && a[..i] == b[..i] && a[i] < b[i];
        assert a[1..][..i - 1] == a[..i][1..] && b[1..][..i - 1] == b[..i][1..];
        assert a[1..][i - 1] < b[1..][i - 1];
      }
    } else if a != [] && b != [] {
      assert !(a <= b);
      if a[0] < b[0] { assert a[..0] == b[..0]; }
      forall i | 0 <= i < |a| && i < |b| && a[..i] == b[..i] ensures i == 0 {}
    }
  }

  function WithKey<T>(s: seq<T>, key: T -> Key, k: Key): seq<T> {
    if s == [] then []
    else
      var last := s[|s| - 1];
      WithKey(s[..|s| - 1], key, k) + if key(last) == k then [last] else []
  }

  lemma {:induction false} InsertStable<T>(s: seq<T>, x: T, key: T -> Key, k: Key)
    ensures WithKey(Insert(s, x, key), key, k) == WithKey(s, key, k) + if key(x) == k then [x] else []
  {
    hide AtMost;
    assert (s + [x])[..|s|] == s;
    if s != [] {
      var init, last := s[..|s| - 1], s[|s| - 1];
      KeyOrder(key(last), key(x));
      if !AtMost(key(last), key(x)) {
        InsertStable(init, x, key, k);
        var r := Insert(init, x, key);
        assert (r + [last])[..|r|] == r;
      }
    }
  }

  /** Elements with equal keys keep their order. */
  lemma {:induction false} SortStable<T>(s: seq<T>, key: T -> Key, k: Key)
    ensures WithKey(Sort(s, key), key, k) == WithKey(s, key, k)
  {
    hide Insert;
    if s != [] {
      var init, last := s[..|s| - 1], s[|s| - 1];
      SortStable(init, key, k);
      InsertStable(Sort(init, key), last, key, k);
    }
  }
}
