/** Orders of a set, sums over them, and counting a relation by rows and by columns. */
module Counting {

  /** The sequence names every member of the set once: an order in which a range loop may go. */
  ghost predicate Orders<K>(order: seq<K>, keys: set<K>) {
    && (forall i, j | 0 <= i < j < |order| :: order[i] != order[j])
    && (forall i | 0 <= i < |order| :: order[i] in keys)
    && (forall k | k in keys :: k in order)
  }

  /** Some order in which a loop over the set may go. */
  ghost function SomeOrder<K>(keys: set<K>): (order: seq<K>)
    ensures Orders(order, keys)
    decreases |keys|
  {
    if keys == {} then []
    else
      var k :| k in keys;
      var rest := SomeOrder(keys - {k});
      assert forall x | x in keys :: x == k || x in keys - {k};
      [k] + rest
  }

  lemma ExtendOrder<K>(order: seq<K>, keys: set<K>, k: K)
    requires Orders(order, keys) && k !in keys
    ensures Orders(order + [k], keys + {k})
  {
  }

  /** One more round of a loop that takes the members out of a set one by one. */
  lemma OneFewer<K>(order: seq<K>, keys: set<K>, left: set<K>, k: K)
    requires k in left && left <= keys && Orders(order, keys - left)
    ensures Orders(order + [k], keys - (left - {k}))
  {
    ExtendOrder(order, keys - left, k);
    assert keys - (left - {k}) == keys - left + {k};
  }

  lemma OrdersJoin<K>(a: seq<K>, b: seq<K>, s: set<K>, t: set<K>)
    requires Orders(a, s) && Orders(b, t) && s !! t
    ensures Orders(a + b, s + t)
  {
  }

  lemma {:induction false} CountDistinct<T>(a: seq<T>, x: T)
    requires forall i, j | 0 <= i < j < |a| :: a[i] != a[j]
    ensures multiset(a)[x] == if x in a then 1 else 0
  {
    if a != [] {
      CountDistinct(a[1..], x);
      assert a == [a[0]] + a[1..];
      assert a[0] !in a[1..];
    }
  }

  /** Two orders of one set are permutations of each other. */
  lemma OrdersPermute<K>(a: seq<K>, b: seq<K>, keys: set<K>)
    requires Orders(a, keys) && Orders(b, keys)
    ensures multiset(a) == multiset(b)
  {
    forall x ensures multiset(a)[x] == multiset(b)[x] {
      CountDistinct(a, x);
      CountDistinct(b, x);
    }
  }

  function MapSeq<K, V>(f: K -> V, a: seq<K>): (r: seq<V>)
    ensures |r| == |a| && forall i | 0 <= i < |a| :: r[i] == f(a[i])
  {
    if a == [] then [] else [f(a[0])] + MapSeq(f, a[1..])
  }

  /** Mapping keeps permutations. */
  lemma {:induction false} MapPermutes<K, V>(f: K -> V, a: seq<K>, b: seq<K>)
    requires multiset(a) == multiset(b)
    ensures multiset(MapSeq(f, a)) == multiset(MapSeq(f, b))
  {
    if a == [] {
      assert |b| == |multiset(b)| == 0;
    } else {
      var x, rest := a[0], a[1..];
      assert a == [x] + rest;
      assert x in multiset(b);
      var j :| 0 <= j < |b| && b[j] == x;
      var left, right := b[..j], b[j + 1..];
      assert b == left + [x] + right;
      Cancel(x, rest, left, right);
      MapPermutes(f, rest, left + right);
      MapInsert(f, left, x, right);
    }
  }

  lemma Cancel<K>(x: K, rest: seq<K>, left: seq<K>, right: seq<K>)
    requires multiset([x] + rest) == multiset(left + [x] + right)
    ensures multiset(rest) == multiset(left + right)
  {
    assert multiset(rest) == multiset([x] + rest) - multiset{x};
  }

  lemma MapInsert<K, V>(f: K -> V, left: seq<K>, x: K, right: seq<K>)
    ensures multiset(MapSeq(f, left + [x] + right)) == multiset(MapSeq(f, left + right)) + multiset{f(x)}
  {
    MapAppend(f, left + [x], right);
    MapAppend(f, left, [x]);
    MapAppend(f, left, right);
  }

  lemma MapAppend<K, V>(f: K -> V, a: seq<K>, b: seq<K>)
    ensures MapSeq(f, a + b) == MapSeq(f, a) + MapSeq(f, b)
  {
    forall i | 0 <= i < |a + b| ensures MapSeq(f, a + b)[i] == (MapSeq(f, a) + MapSeq(f, b))[i] {
    }
  }

  // ---- Counting twice ----------------------------------------------------------------------

  /** How many of bs are related to a. */
  function Row<A, B>(r: (A, B) -> bool, a: A, bs: seq<B>): nat {
    if bs == [] then 0 else (if r(a, bs[0]) then 1 else 0) + Row(r, a, bs[1..])
  }

  /** How many of as_ are related to b. */
  function Column<A, B>(r: (A, B) -> bool, as_: seq<A>, b: B): nat {
    if as_ == [] then 0 else (if r(as_[0], b) then 1 else 0) + Column(r, as_[1..], b)
  }

  function SumRows<A, B>(r: (A, B) -> bool, as_: seq<A>, bs: seq<B>): nat {
    if as_ == [] then 0 else Row(r, as_[0], bs) + SumRows(r, as_[1..], bs)
  }

  function SumColumns<A, B>(r: (A, B) -> bool, as_: seq<A>, bs: seq<B>): nat {
    if bs == [] then 0 else Column(r, as_, bs[0]) + SumColumns(r, as_, bs[1..])
  }

  /** Summing a relation by rows and by columns gives the same number. */
  lemma {:induction false} DoubleCount<A, B>(r: (A, B) -> bool, as_: seq<A>, bs: seq<B>)
    ensures SumRows(r, as_, bs) == SumColumns(r, as_, bs)
  {
    if as_ == [] {
      NoRows(r, bs);
    } else {
      DoubleCount(r, as_[1..], bs);
      SplitColumns(r, as_, bs);
    }
  }

  lemma {:induction false} NoRows<A, B>(r: (A, B) -> bool, bs: seq<B>)
    ensures SumColumns(r, [], bs) == 0
  {
    if bs != [] {
      NoRows(r, bs[1..]);
    }
  }

  lemma {:induction false} SplitColumns<A, B>(r: (A, B) -> bool, as_: seq<A>, bs: seq<B>)
    requires as_ != []
    ensures SumColumns(r, as_, bs) == Row(r, as_[0], bs) + SumColumns(r, as_[1..], bs)
  {
    if bs != [] {
      SplitColumns(r, as_, bs[1..]);
    }
  }

  ghost function Related<A, B>(r: (A, B) -> bool, a: A, bs: seq<B>): set<B> {
    set b | b in bs && r(a, b)
  }

  ghost function Relating<A, B>(r: (A, B) -> bool, as_: seq<A>, b: B): set<A> {
    set a | a in as_ && r(a, b)
  }

  /** Over an order of a set, a row counts the related members. */
  lemma {:induction false} RowCounts<A, B>(r: (A, B) -> bool, a: A, bs: seq<B>)
    requires forall i, j | 0 <= i < j < |bs| :: bs[i] != bs[j]
    ensures Row(r, a, bs) == |Related(r, a, bs)|
  {
    if bs != [] {
      var rest := Related(r, a, bs[1..]);
      RowCounts(r, a, bs[1..]);
      assert bs == [bs[0]] + bs[1..] && bs[0] !in bs[1..];
      assert Related(r, a, bs) == if r(a, bs[0]) then {bs[0]} + rest else rest;
    }
  }

  lemma {:induction false} ColumnCounts<A, B>(r: (A, B) -> bool, as_: seq<A>, b: B)
    requires forall i, j | 0 <= i < j < |as_| :: as_[i] != as_[j]
    ensures Column(r, as_, b) == |Relating(r, as_, b)|
  {
    if as_ != [] {
      var rest := Relating(r, as_[1..], b);
      ColumnCounts(r, as_[1..], b);
      assert as_ == [as_[0]] + as_[1..] && as_[0] !in as_[1..];
      assert Relating(r, as_, b) == if r(as_[0], b) then {as_[0]} + rest else rest;
    }
  }

  /** An order is as long as its set is large. */
  lemma {:induction false} OrderLength<K>(order: seq<K>, keys: set<K>)
    requires Orders(order, keys)
    ensures |order| == |keys|
  {
    if order == [] {
      assert keys == {};
    } else {
      var k, rest := order[0], order[1..];
      assert order == [k] + rest;
      assert k !in rest;
      OrderLength(rest, keys - {k});
    }
  }

  /** A one-to-one image has as many members as the set. */
  lemma ImageCount<A, B>(f: A -> B, dom: set<A>, image: set<B>)
    requires forall a, b | a in dom && b in dom && f(a) == f(b) :: a == b
    requires forall a | a in dom :: f(a) in image
    requires forall y | y in image :: exists a | a in dom :: f(a) == y
    ensures |image| == |dom|
  {
    var order := SomeOrder(dom);
    var ys := MapSeq(f, order);
    forall y | y in image ensures y in ys {
      var a :| a in dom && f(a) == y;
      var i :| 0 <= i < |order| && order[i] == a;
      assert ys[i] == y;
    }
    OrderLength(ys, image);
    OrderLength(order, dom);
  }

  // ---- Loops that empty a set ------------------------------------------------------------------

  /** A loop over the keys has taken them in this order, but for those left. */
  ghost predicate Walked<K>(order: seq<K>, keys: set<K>, left: set<K>) {
    if order == [] then left == keys
    else
      var n := |order| - 1;
      order[n] in keys && order[n] !in left && Walked(order[..n], keys, left + {order[n]})
  }

  lemma WalkOn<K>(order: seq<K>, keys: set<K>, left: set<K>, k: K)
    requires Walked(order, keys, left) && k in left && k in keys
    ensures Walked(order + [k], keys, left - {k})
  {
    assert (order + [k])[..|order|] == order && left - {k} + {k} == left;
  }

  /** When nothing is left, the order is one of all the keys. */
  lemma {:induction false} WalkedAll<K>(order: seq<K>, keys: set<K>, left: set<K>)
    requires Walked(order, keys, left)
    ensures left <= keys && Orders(order, keys - left)
  {
    if order != [] {
      var n := |order| - 1;
      WalkedAll(order[..n], keys, left + {order[n]});
      assert order == order[..n] + [order[n]];
      OneFewer(order[..n], keys, left + {order[n]}, order[n]);
      assert left + {order[n]} - {order[n]} == left;
    }
  }
}
