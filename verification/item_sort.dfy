/** The order of items inside one platform group: `Array.prototype.sort`, which is stable,
    with the comparator of `displayGrouped`. */
module ItemSort {
  import opened Items
  import StringOrder

  /** The comparator: unpicked items before picked ones, each tier by product name. */
  function Compare(a: Item, b: Item): (r: int)
    ensures r < 0 <==> (!a.picked && b.picked)
                       || (a.picked == b.picked && StringOrder.Less(ProductKey(a), ProductKey(b)))
    ensures r == 0 <==> a.picked == b.picked && ProductKey(a) == ProductKey(b)
  {
    if a.picked == b.picked then StringOrder.LocaleCompare(ProductKey(a), ProductKey(b))
    else if a.picked then 1 else -1
  }

  /** The comparator is antisymmetric and transitive, so it is a consistent comparator. */
  lemma CompareAntisymmetric(a: Item, b: Item)
    ensures Compare(a, b) < 0 <==> Compare(b, a) > 0
    ensures Compare(a, b) == 0 <==> Compare(b, a) == 0
  {
    StringOrder.LessAsymmetric(ProductKey(a), ProductKey(b));
    StringOrder.LessAsymmetric(ProductKey(b), ProductKey(a));
    StringOrder.LessTotal(ProductKey(a), ProductKey(b));
  }

  lemma CompareTransitive(a: Item, b: Item, c: Item)
    requires Compare(a, b) <= 0 && Compare(b, c) <= 0
    ensures Compare(a, c) <= 0
    ensures Compare(a, b) < 0 || Compare(b, c) < 0 ==> Compare(a, c) < 0
  {
    if a.picked == b.picked == c.picked {
      var ka, kb, kc := ProductKey(a), ProductKey(b), ProductKey(c);
      if StringOrder.Less(ka, kb) && StringOrder.Less(kb, kc) {
        StringOrder.LessTransitive(ka, kb, kc);
      }
      StringOrder.LessIrreflexive(ka);
    }
  }

  /** The order a stable sort produces on items whose input order is their sheet row:
      by the comparator, ties by sheet row. */
  predicate Before(a: Item, b: Item) {
    Compare(a, b) < 0 || (Compare(a, b) == 0 && a.sheetRow < b.sheetRow)
  }

  lemma BeforeTransitive(a: Item, b: Item, c: Item)
    requires Before(a, b) && Before(b, c)
    ensures Before(a, c)
  {
    CompareTransitive(a, b, c);
  }

  lemma BeforeAsymmetric(a: Item, b: Item)
    ensures Before(a, b) ==> !Before(b, a)
  {
    CompareAntisymmetric(a, b);
  }

  predicate StrictlySorted(s: seq<Item>) {
    forall i, j :: 0 <= i < j < |s| ==> Before(s[i], s[j])
  }

  /** The items of a group before sorting: in input order, so by increasing sheet row. */
  predicate IncreasingRows(s: seq<Item>) {
    forall i, j :: 0 <= i < j < |s| ==> s[i].sheetRow < s[j].sheetRow
  }

  /** Puts `x` after every item that does not compare greater than it. */
  function Insert(x: Item, t: seq<Item>): (r: seq<Item>)
    ensures multiset(r) == multiset(t) + multiset{x}
    ensures |r| == |t| + 1
  {
    if t == [] then [x]
    else if Compare(x, t[0]) < 0 then [x] + t
    else
      assert t == [t[0]] + t[1..];
      [t[0]] + Insert(x, t[1..])
  }

  /** The sort of one group: a stable insertion sort by `Compare`. */
  function SortItems(s: seq<Item>): (r: seq<Item>)
    ensures multiset(r) == multiset(s)
    ensures |r| == |s|
  {
    if s == [] then []
    else
      assert s == s[..|s| - 1] + [s[|s| - 1]];
      Insert(s[|s| - 1], SortItems(s[..|s| - 1]))
  }

  /** Putting in front an item that comes before all others keeps a sequence sorted. */
  lemma PrependSorted(y: Item, u: seq<Item>)
    requires StrictlySorted(u)
    requires forall j :: 0 <= j < |u| ==> Before(y, u[j])
    ensures StrictlySorted([y] + u)
  {
    var r := [y] + u;
    forall i, j | 0 <= i < j < |r| ensures Before(r[i], r[j]) {
      assert r[j] == u[j - 1];
      if i > 0 { assert r[i] == u[i - 1]; }
    }
  }

  lemma {:induction false} InsertSorted(x: Item, t: seq<Item>)
    requires StrictlySorted(t)
    requires forall y :: y in t ==> y.sheetRow < x.sheetRow
    ensures StrictlySorted(Insert(x, t))
  {
    if t == [] {
    } else if Compare(x, t[0]) < 0 {
      forall j | 0 <= j < |t| ensures Before(x, t[j]) {
        if j > 0 { BeforeTransitive(x, t[0], t[j]); }
      }
      PrependSorted(x, t);
    } else {
      var u := Insert(x, t[1..]);
      InsertSorted(x, t[1..]);
      CompareAntisymmetric(x, t[0]);
      forall j | 0 <= j < |u| ensures Before(t[0], u[j]) {
        assert u[j] in multiset(u);
        if u[j] != x {
          assert u[j] in multiset(t[1..]);
          var k :| 0 <= k < |t[1..]| && t[1..][k] == u[j];
          assert t[k + 1] == u[j];
        }
      }
      PrependSorted(t[0], u);
    }
  }

  /** Sorting a group's items (in input order) orders them by the comparator and keeps items
      that compare equal in input order, which is what a stable sort promises. */
  lemma {:induction false} SortStable(s: seq<Item>)
    requires IncreasingRows(s)
    ensures StrictlySorted(SortItems(s))
  {
    if s != [] {
      var init, x := s[..|s| - 1], s[|s| - 1];
      SortStable(init);
      forall y | y in SortItems(init) ensures y.sheetRow < x.sheetRow {
        assert y in multiset(SortItems(init));
        assert y in init;
      }
      InsertSorted(x, SortItems(init));
    }
  }

  /** The sorted order spelled out: unpicked items first, then picked; within a tier product
      names ascend (a missing name counting as the empty one); equal names keep input order. */
  lemma SortedMeaning(s: seq<Item>, i: int, j: int)
    requires StrictlySorted(s) && 0 <= i < j < |s|
    ensures s[i].picked ==> s[j].picked
    ensures s[i].picked == s[j].picked ==> !StringOrder.Less(ProductKey(s[j]), ProductKey(s[i]))
    ensures s[i].picked == s[j].picked && ProductKey(s[i]) == ProductKey(s[j])
            ==> s[i].sheetRow < s[j].sheetRow
  {
    assert Before(s[i], s[j]);
    StringOrder.LessAsymmetric(ProductKey(s[i]), ProductKey(s[j]));
    StringOrder.LessIrreflexive(ProductKey(s[i]));
  }

  lemma SortedHeadsEqual(a: seq<Item>, b: seq<Item>)
    requires a != [] && b != []
    requires StrictlySorted(a) && StrictlySorted(b)
    requires multiset(a) == multiset(b)
    ensures a[0] == b[0]
  {
    assert a[0] in multiset(b) && b[0] in multiset(a);
    var k :| 0 <= k < |b| && b[k] == a[0];
    var m :| 0 <= m < |a| && a[m] == b[0];
    BeforeAsymmetric(a[0], b[0]);
  }

  /** A strictly sorted arrangement of given items is unique. */
  lemma {:induction false} SortedUnique(a: seq<Item>, b: seq<Item>)
    requires StrictlySorted(a) && StrictlySorted(b)
    requires multiset(a) == multiset(b)
    ensures a == b
  {
    assert |a| == |multiset(a)| == |multiset(b)| == |b|;
    if a != [] {
      SortedHeadsEqual(a, b);
      assert a == [a[0]] + a[1..] && b == [b[0]] + b[1..];
      assert multiset(a[1..]) == multiset(a) - multiset{a[0]};
      assert multiset(b[1..]) == multiset(b) - multiset{b[0]};
      SortedUnique(a[1..], b[1..]);
    }
  }

  /** So the sort is characterised independently of the insertion algorithm: it is the one
      arrangement of the group's items that is ordered by comparator, then input order. */
  lemma SortIsTheSortedPermutation(s: seq<Item>, t: seq<Item>)
    requires IncreasingRows(s)
    requires multiset(t) == multiset(s) && StrictlySorted(t)
    ensures t == SortItems(s)
  {
    SortStable(s);
    SortedUnique(t, SortItems(s));
  }
}
