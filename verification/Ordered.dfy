/** Strictly ascending sequences under a strict total order.

    The store keeps item lists, lease ledgers and hash rings sorted by hand: a binary search finds
    the slot, and the tail is shifted by one.  All three share the definitions here. */
module Ordered {

  datatype Option<+T> = None | Some(value: T)

  ghost predicate StrictOrder<K(!new)>(lt: (K, K) -> bool) {
    && (forall a :: !lt(a, a))
    && (forall a, b, c :: lt(a, b) && lt(b, c) ==> lt(a, c))
    && (forall a, b :: a == b || lt(a, b) || lt(b, a))
  }

  ghost predicate AscendingBy<T, K>(s: seq<T>, key: T -> K, lt: (K, K) -> bool) {
    forall i, j | 0 <= i < j < |s| :: lt(key(s[i]), key(s[j]))
  }

  ghost predicate Ascending<K>(s: seq<K>, lt: (K, K) -> bool) {
    forall i, j | 0 <= i < j < |s| :: lt(s[i], s[j])
  }

  /** The slot of `x`: everything before it is smaller, nothing from it on is. */
  ghost predicate IsSlot<K>(s: seq<K>, x: K, i: nat, lt: (K, K) -> bool) {
    && i <= |s|
    && (forall j | 0 <= j < i :: lt(s[j], x))
    && (forall j | i <= j < |s| :: !lt(s[j], x))
  }

  function Elems<K>(s: seq<K>): set<K> {
    set x | x in s
  }

  /** How many leading elements are below `x`. */
  function Rank<K>(s: seq<K>, x: K, lt: (K, K) -> bool): (i: nat)
    ensures i <= |s|
  {
    if s == [] || !lt(s[0], x) then 0 else 1 + Rank(s[1..], x, lt)
  }

  function Insert<K>(s: seq<K>, x: K, lt: (K, K) -> bool): seq<K> {
    var i := Rank(s, x, lt);
    s[..i] + [x] + s[i..]
  }

  function Remove<K(==)>(s: seq<K>, x: K): (r: seq<K>)
    ensures forall y | y in r :: y in s
  {
    if s == [] then [] else if s[0] == x then s[1..] else [s[0]] + Remove(s[1..], x)
  }

  lemma {:induction false} RankIsTheSlot<K(!new)>(s: seq<K>, x: K, i: nat, lt: (K, K) -> bool)
    requires IsSlot(s, x, i, lt)
    ensures Rank(s, x, lt) == i
  {
    if s != [] && lt(s[0], x) {
      assert i > 0;
      RankIsTheSlot(s[1..], x, i - 1, lt);
    }
  }

  lemma {:induction false} RankSlot<K(!new)>(s: seq<K>, x: K, lt: (K, K) -> bool)
    requires StrictOrder(lt) && Ascending(s, lt)
    ensures IsSlot(s, x, Rank(s, x, lt), lt)
    ensures x in s <==> Rank(s, x, lt) < |s| && s[Rank(s, x, lt)] == x
  {
    if s != [] {
      if lt(s[0], x) {
        RankSlot(s[1..], x, lt);
        var r := Rank(s[1..], x, lt);
        assert s == [s[0]] + s[1..];
        assert forall j | 0 < j < |s| :: s[j] == s[1..][j - 1];
      } else {
        forall j | 0 <= j < |s| ensures !lt(s[j], x) {
          assert j == 0 || lt(s[0], s[j]);
        }
      }
    }
  }

  lemma SpliceElems<K>(s: seq<K>, i: nat, x: K)
    requires i <= |s|
    ensures Elems(s[..i] + [x] + s[i..]) == Elems(s) + {x}
  {
    var r := s[..i] + [x] + s[i..];
    assert s == s[..i] + s[i..];
    assert forall y :: y in r <==> y in s[..i] || y == x || y in s[i..];
  }

  lemma SpliceAscending<K(!new)>(s: seq<K>, i: nat, x: K, lt: (K, K) -> bool)
    requires StrictOrder(lt) && Ascending(s, lt) && IsSlot(s, x, i, lt) && (i < |s| ==> s[i] != x)
    ensures Ascending(s[..i] + [x] + s[i..], lt)
  {
    forall j | i <= j < |s| ensures lt(x, s[j]) {
      assert lt(x, s[i]);
    }
  }

  lemma SpliceAscendingBy<T, K>(s: seq<T>, i: nat, x: T, key: T -> K, lt: (K, K) -> bool)
    requires i <= |s| && AscendingBy(s, key, lt)
    requires forall j | 0 <= j < i :: lt(key(s[j]), key(x))
    requires forall j | i <= j < |s| :: lt(key(x), key(s[j]))
    ensures AscendingBy(s[..i] + [x] + s[i..], key, lt)
  {
  }

  /** Insertion keeps the order exactly when the item is new, and adds that item alone. */
  lemma InsertKeepsOrder<K(!new)>(s: seq<K>, x: K, lt: (K, K) -> bool)
    requires StrictOrder(lt) && Ascending(s, lt)
    ensures Elems(Insert(s, x, lt)) == Elems(s) + {x}
    ensures |Insert(s, x, lt)| == |s| + 1
    ensures Ascending(Insert(s, x, lt), lt) <==> x !in s
  {
    var i := Rank(s, x, lt);
    RankSlot(s, x, lt);
    SpliceElems(s, i, x);
    if x in s {
      var r := Insert(s, x, lt);
      assert r[i] == x && r[i + 1] == x;
    } else {
      SpliceAscending(s, i, x, lt);
    }
  }

  lemma {:induction false} RemoveKeepsOrder<K(!new)>(s: seq<K>, x: K, lt: (K, K) -> bool)
    requires StrictOrder(lt) && Ascending(s, lt)
    ensures Ascending(Remove(s, x), lt)
    ensures Elems(Remove(s, x)) == Elems(s) - {x}
    ensures |Remove(s, x)| == if x in s then |s| - 1 else |s|
  {
    if s != [] {
      RemoveKeepsOrder(s[1..], x, lt);
      FirstIsLeast(s, lt);
      if s[0] != x {
        ConsAscending(s[0], Remove(s[1..], x), lt);
      }
    }
  }

  /** The first element is below the others, so it is not among them. */
  lemma FirstIsLeast<K(!new)>(s: seq<K>, lt: (K, K) -> bool)
    requires StrictOrder(lt) && Ascending(s, lt) && s != []
    ensures forall y | y in s[1..] :: lt(s[0], y)
    ensures s[0] !in s[1..] && Elems(s) == {s[0]} + Elems(s[1..])
  {
    assert s == [s[0]] + s[1..];
  }

  lemma ConsAscending<K(!new)>(x: K, s: seq<K>, lt: (K, K) -> bool)
    requires Ascending(s, lt) && forall y | y in s :: lt(x, y)
    ensures Ascending([x] + s, lt) && Elems([x] + s) == {x} + Elems(s)
  {
  }

  /** Shifting the tail down over position `i` removes that element. */
  lemma {:induction false} RemoveAt<K(!new)>(s: seq<K>, i: nat, lt: (K, K) -> bool)
    requires StrictOrder(lt) && Ascending(s, lt) && i < |s|
    ensures Remove(s, s[i]) == s[..i] + s[i + 1..]
  {
    if i > 0 {
      assert lt(s[0], s[i]);
      RemoveAt(s[1..], i - 1, lt);
      assert [s[0]] + (s[1..][..i - 1] + s[1..][i..]) == s[..i] + s[i + 1..];
    }
  }

  /** An ascending sequence is determined by its set of elements. */
  lemma {:induction false} AscendingIsCanonical<K(!new)>(a: seq<K>, b: seq<K>, lt: (K, K) -> bool)
    requires StrictOrder(lt) && Ascending(a, lt) && Ascending(b, lt)
    requires Elems(a) == Elems(b)
    ensures a == b
  {
    assert (a != [] ==> a[0] in Elems(b)) && (b != [] ==> b[0] in Elems(a));
    if a != [] {
      FirstIsLeast(a, lt);
      FirstIsLeast(b, lt);
      assert a[0] == b[0];
      assert Elems(a[1..]) == Elems(a) - {a[0]} && Elems(b[1..]) == Elems(b) - {b[0]};
      AscendingIsCanonical(a[1..], b[1..], lt);
      assert a == [a[0]] + a[1..] && b == [b[0]] + b[1..];
    }
  }

  lemma AscendingSize<K(!new)>(s: seq<K>, lt: (K, K) -> bool)
    requires StrictOrder(lt) && Ascending(s, lt)
    ensures |Elems(s)| == |s|
    decreases |s|
  {
    if s != [] {
      FirstIsLeast(s, lt);
      AscendingSize(s[1..], lt);
    }
  }

  /** Bytewise comparison of strings, as Go's `<` does it. */
  predicate StringLess(a: string, b: string) {
    b != [] && (a == [] || a[0] < b[0] || (a[0] == b[0] && StringLess(a[1..], b[1..])))
  }

  lemma {:induction false} StringLessTransitive(a: string, b: string, c: string)
    requires StringLess(a, b) && StringLess(b, c)
    ensures StringLess(a, c)
  {
    if a != [] && a[0] == b[0] == c[0] {
      StringLessTransitive(a[1..], b[1..], c[1..]);
    }
  }

  lemma {:induction false} StringLessTotal(a: string, b: string)
    ensures a == b || StringLess(a, b) || StringLess(b, a)
  {
    if a != [] && b != [] && a[0] == b[0] {
      StringLessTotal(a[1..], b[1..]);
      assert a == [a[0]] + a[1..] && b == [b[0]] + b[1..];
    }
  }

  lemma {:induction false} StringLessIrreflexive(a: string)
    ensures !StringLess(a, a)
  {
    if a != [] { StringLessIrreflexive(a[1..]); }
  }

  lemma StringOrder()
    ensures StrictOrder(StringLess)
  {
    forall a ensures !StringLess(a, a) { StringLessIrreflexive(a); }
    forall a, b, c | StringLess(a, b) && StringLess(b, c) ensures StringLess(a, c) {
      StringLessTransitive(a, b, c);
    }
    forall a, b ensures a == b || StringLess(a, b) || StringLess(b, a) { StringLessTotal(a, b); }
  }

  /** The binary search of the repository: the low and high ends are inclusive, a hit returns at
      once, and a miss returns the slot. */
  method BinarySearch<T, K(==, !new)>(vals: seq<T>, key: T -> K, val: K, lt: (K, K) -> bool) returns (i: nat)
    requires StrictOrder(lt) && AscendingBy(vals, key, lt)
    ensures i <= |vals|
    ensures forall j | 0 <= j < i :: lt(key(vals[j]), val)
    ensures forall j | i <= j < |vals| :: !lt(key(vals[j]), val)
    ensures (exists x | x in vals :: key(x) == val) <==> i < |vals| && key(vals[i]) == val
  {
    i := 0;
    var j := |vals| - 1;
    while i <= j
      invariant 0 <= i <= j + 1 <= |vals|
      invariant forall k | 0 <= k < i :: lt(key(vals[k]), val)
      invariant forall k | j < k < |vals| :: lt(val, key(vals[k]))
    {
      var mid := (i + j) / 2;
      if key(vals[mid]) == val {
        return mid;
      } else if lt(key(vals[mid]), val) {
        i := mid + 1;
      } else {
        assert lt(val, key(vals[mid]));
        j := mid - 1;
      }
    }
  }
}
