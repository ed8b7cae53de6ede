/** Strictly sorted sequences: the form in which ordered sets and maps are listed. */
module Ordering {
  import opened Text

  ghost predicate StrictOrder<T(!new)>(lt: (T, T) -> bool)
  {
    && (forall x :: !lt(x, x))
    && (forall x, y, z :: lt(x, y) && lt(y, z) ==> lt(x, z))
  }

  ghost predicate Sorted<T>(s: seq<T>, lt: (T, T) -> bool)
  {
    forall i, j :: 0 <= i < j < |s| ==> lt(s[i], s[j])
  }

  /** A strictly sorted sequence is determined by its elements. */
  lemma {:induction false} SortedUnique<T(!new)>(a: seq<T>, b: seq<T>, lt: (T, T) -> bool)
    requires StrictOrder(lt) && Sorted(a, lt) && Sorted(b, lt)
    requires forall x :: x in a <==> x in b
    ensures a == b
  {
    assert b != [] ==> b[0] in a;
    if a != [] {
      assert a[0] in b;
      assert a[0] == b[0];
      forall x ensures x in a[1..] <==> x in b[1..] {
        SortedTail(a, lt, x);
        SortedTail(b, lt, x);
      }
      SortedUnique(a[1..], b[1..], lt);
      assert a == [a[0]] + a[1..] && b == [b[0]] + b[1..];
    }
  }

  lemma SortedTail<T(!new)>(a: seq<T>, lt: (T, T) -> bool, x: T)
    requires StrictOrder(lt) && Sorted(a, lt) && a != []
    ensures x in a[1..] <==> x in a && x != a[0]
  {
    assert a == [a[0]] + a[1..];
    assert forall i :: 0 <= i < |a| - 1 ==> a[1..][i] == a[i + 1] && lt(a[0], a[i + 1]);
  }

  // ---- byte strings and (slot, hash) keys ---------------------------------------------

  /** `Vec<u8>`'s order: first differing byte decides, a proper prefix comes first. */
  predicate BytesLt(a: Bytes, b: Bytes) {
    b != [] && (a == [] || a[0] < b[0] || (a[0] == b[0] && BytesLt(a[1..], b[1..])))
  }

  lemma {:induction false} BytesLtIrreflexive(a: Bytes)
    ensures !BytesLt(a, a)
  {
    if a != [] { BytesLtIrreflexive(a[1..]); }
  }

  lemma {:induction false} BytesLtTransitive(a: Bytes, b: Bytes, c: Bytes)
    requires BytesLt(a, b) && BytesLt(b, c)
    ensures BytesLt(a, c)
  {
    if a != [] && a[0] == b[0] == c[0] { BytesLtTransitive(a[1..], b[1..], c[1..]); }
  }

  lemma {:induction false} BytesLtTotal(a: Bytes, b: Bytes)
    ensures a == b || BytesLt(a, b) || BytesLt(b, a)
  {
    if a != [] && b != [] && a[0] == b[0] {
      BytesLtTotal(a[1..], b[1..]);
      assert a == [a[0]] + a[1..] && b == [b[0]] + b[1..];
    }
  }

  type Key = (u64, Bytes)

  predicate KeyLt(a: Key, b: Key) {
    a.0 < b.0 || (a.0 == b.0 && BytesLt(a.1, b.1))
  }

  predicate KeyLe(a: Key, b: Key) {
    a == b || KeyLt(a, b)
  }

  lemma KeyOrder()
    ensures StrictOrder(KeyLt)
    ensures forall a, b :: a == b || KeyLt(a, b) || KeyLt(b, a)
  {
    forall a: Key ensures !KeyLt(a, a) { BytesLtIrreflexive(a.1); }
    forall a: Key, b: Key, c: Key | KeyLt(a, b) && KeyLt(b, c) ensures KeyLt(a, c) {
      if a.0 == b.0 == c.0 { BytesLtTransitive(a.1, b.1, c.1); }
    }
    forall a: Key, b: Key ensures a == b || KeyLt(a, b) || KeyLt(b, a) { BytesLtTotal(a.1, b.1); }
  }

  predicate IsLeast(k: Key, s: set<Key>) {
    k in s && forall j :: j in s ==> KeyLe(k, j)
  }

  lemma {:induction false} LeastExists(s: set<Key>)
    requires s != {}
    ensures exists k :: IsLeast(k, s)
    decreases s
  {
    KeyOrder();
    var x :| x in s;
    if s == {x} {
      assert IsLeast(x, s);
    } else {
      var rest := s - {x};
      LeastExists(rest);
      var k :| IsLeast(k, rest);
      assert s == rest + {x};
      assert IsLeast(if KeyLt(x, k) then x else k, s);
    }
  }

  /** The keys of an ordered map in iteration order. */
  function SortedKeys(s: set<Key>): (r: seq<Key>)
    ensures Sorted(r, KeyLt)
    ensures forall k :: k in r <==> k in s
  {
    if s == {} then []
    else
      LeastExists(s);
      KeyOrder();
      var k :| IsLeast(k, s);
      [k] + SortedKeys(s - {k})
  }

  lemma SortedKeysUnique(s: set<Key>, r: seq<Key>)
    requires Sorted(r, KeyLt) && forall k :: k in r <==> k in s
    ensures r == SortedKeys(s)
  {
    KeyOrder();
    SortedUnique(r, SortedKeys(s), KeyLt);
  }
}
