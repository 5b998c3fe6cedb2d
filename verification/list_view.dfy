/** The data half of `displayGrouped`: rows are grouped by platform, in the order platforms are
    first seen, and each group is sorted. */
module ListView {
  import opened Wrappers
  import opened Items
  import JsValues
  import ItemSort

  /** One platform card: its heading and its items in display order. */
  datatype Group = Group(platform: string, items: seq<Item>)

  function Platforms(groups: seq<Group>): (ps: seq<string>)
    ensures |ps| == |groups|
    ensures forall a :: 0 <= a < |groups| ==> ps[a] == groups[a].platform
  {
    seq(|groups|, a requires 0 <= a < |groups| => groups[a].platform)
  }

  /** The number of items over all cards. */
  function TotalItems(groups: seq<Group>): nat {
    if groups == [] then 0 else |groups[0].items| + TotalItems(groups[1..])
  }

  // ---------------------------------------------------------------------------
  // The reference: which items belong to a platform

  /** The items of the rows whose platform is `key`, in input order. */
  function Members(rows: seq<Row>, key: string): seq<Item>
    decreases |rows|
  {
    if rows == [] then []
    else
      var n := |rows| - 1;
      Members(rows[..n], key) + (if PlatformOf(rows[n]) == key then [ItemOf(rows[n], n)] else [])
  }

  lemma MembersSnoc(rows: seq<Row>, i: nat, key: string)
    requires i < |rows|
    ensures Members(rows[..i + 1], key)
            == Members(rows[..i], key) + (if PlatformOf(rows[i]) == key then [ItemOf(rows[i], i)] else [])
  {
    assert rows[..i + 1][..i] == rows[..i];
  }

  /** Each member is the item of a row of that platform, identified by its sheet row, and the
      members come in increasing sheet-row order. */
  lemma {:induction false} MembersFromRows(rows: seq<Row>, key: string)
    ensures ItemSort.IncreasingRows(Members(rows, key))
    ensures forall x :: x in Members(rows, key) ==> MemberOfRow(rows, key, x)
  {
    if rows != [] {
      var n := |rows| - 1;
      var p := rows[..n];
      var m := Members(p, key);
      var tail := if PlatformOf(rows[n]) == key then [ItemOf(rows[n], n)] else [];
      assert Members(rows, key) == m + tail;
      MembersFromRows(p, key);
      forall x | x in m ensures MemberOfRow(rows, key, x) {
        assert MemberOfRow(p, key, x);
        assert p[x.sheetRow - 2] == rows[x.sheetRow - 2];
      }
      forall x | x in m + tail ensures MemberOfRow(rows, key, x) {
        if x !in m { assert x in tail; }
      }
      forall i, j | 0 <= i < j < |m + tail| ensures (m + tail)[i].sheetRow < (m + tail)[j].sheetRow {
        if j >= |m| {
          assert (m + tail)[j] == ItemOf(rows[n], n);
          if i < |m| { assert m[i] in m && MemberOfRow(p, key, m[i]); }
        }
      }
    }
  }

  /** `x` is the item of the row its sheet row names, and that row has platform `key`. */
  ghost predicate MemberOfRow(rows: seq<Row>, key: string, x: Item) {
    && 2 <= x.sheetRow < |rows| + 2
    && PlatformOf(rows[x.sheetRow - 2]) == key
    && x == ItemOf(rows[x.sheetRow - 2], x.sheetRow - 2)
  }

  /** Every row of the platform contributes its item. */
  lemma {:induction false} MembersComplete(rows: seq<Row>, key: string, k: nat)
    requires k < |rows| && PlatformOf(rows[k]) == key
    ensures ItemOf(rows[k], k) in Members(rows, key)
  {
    var n := |rows| - 1;
    if k < n {
      MembersComplete(rows[..n], key, k);
      assert rows[..n][k] == rows[k];
    }
  }

  // ---------------------------------------------------------------------------
  // The forEach over the rows

  /** Where a platform's card is in the list so far (`groups[platform]`). */
  function IndexOf(groups: seq<Group>, key: string): (r: Option<nat>)
    ensures r.Some? ==> r.value < |groups| && groups[r.value].platform == key
    ensures r.None? ==> key !in Platforms(groups)
  {
    if groups == [] then None
    else if groups[0].platform == key then Some(0)
    else
      match IndexOf(groups[1..], key)
      case Some(k) => Some(k + 1)
      case None =>
        forall a | 1 <= a < |groups| ensures groups[a].platform != key {
          assert groups[a] == groups[1..][a - 1];
        }
        None
  }

  /** One iteration: append the item to its platform's card, opening a card at the end when the
      platform is new. */
  function AddItem(groups: seq<Group>, key: string, item: Item): (r: seq<Group>)
    ensures key !in Platforms(groups) ==> r == groups + [Group(key, [item])]
    ensures DistinctPlatforms(groups) && key in Platforms(groups) ==>
              && |r| == |groups|
              && forall a :: 0 <= a < |r| ==>
                   && r[a].platform == groups[a].platform
                   && r[a].items == groups[a].items + (if groups[a].platform == key then [item] else [])
  {
    match IndexOf(groups, key)
    case Some(k) => groups[k := Group(key, groups[k].items + [item])]
    case None => groups + [Group(key, [item])]
  }

  predicate DistinctPlatforms(groups: seq<Group>) {
    forall a, b :: 0 <= a < b < |groups| ==> groups[a].platform != groups[b].platform
  }

  /** Every card holds exactly its platform's items, in input order. */
  ghost predicate HoldsMembers(rows: seq<Row>, groups: seq<Group>) {
    forall a :: 0 <= a < |groups| ==>
      groups[a].items == Members(rows, groups[a].platform) && groups[a].items != []
  }

  /** No platform with rows lacks a card. */
  ghost predicate CoversRows(rows: seq<Row>, groups: seq<Group>) {
    forall key :: key !in Platforms(groups) ==> Members(rows, key) == []
  }

  /** Cards in the order of their first item. */
  predicate FirstSeenOrder(groups: seq<Group>)
    requires forall a :: 0 <= a < |groups| ==> groups[a].items != []
  {
    forall a, b :: 0 <= a < b < |groups| ==> groups[a].items[0].sheetRow < groups[b].items[0].sheetRow
  }

  /** What the cards hold after the first rows: one card per platform seen, cards in order of
      their first row, each holding that platform's items in input order. */
  ghost predicate Collected(rows: seq<Row>, groups: seq<Group>) {
    && DistinctPlatforms(groups)
    && HoldsMembers(rows, groups)
    && CoversRows(rows, groups)
    && FirstSeenOrder(groups)
    && TotalItems(groups) == |rows|
  }

  lemma {:induction false} TotalItemsUpdate(groups: seq<Group>, k: nat, g: Group)
    requires k < |groups|
    ensures TotalItems(groups[k := g]) + |groups[k].items| == TotalItems(groups) + |g.items|
  {
    if k > 0 {
      assert groups[k := g][1..] == groups[1..][k - 1 := g];
      TotalItemsUpdate(groups[1..], k - 1, g);
    }
  }

  lemma {:induction false} TotalItemsAppend(groups: seq<Group>, g: Group)
    ensures TotalItems(groups + [g]) == TotalItems(groups) + |g.items|
  {
    if groups == [] {
      assert [g][1..] == [];
    } else {
      assert (groups + [g])[1..] == groups[1..] + [g];
      TotalItemsAppend(groups[1..], g);
    }
  }

  /** Appending the row at `i` extends its own platform's members and no other. */
  lemma MembersStep(rows: seq<Row>, i: nat)
    requires i < |rows|
    ensures forall other :: Members(rows[..i + 1], other)
              == Members(rows[..i], other) + (if other == PlatformOf(rows[i]) then [ItemOf(rows[i], i)] else [])
  {
    forall other ensures Members(rows[..i + 1], other)
              == Members(rows[..i], other) + (if other == PlatformOf(rows[i]) then [ItemOf(rows[i], i)] else []) {
      MembersSnoc(rows, i, other);
    }
  }

  /** The new item comes after every item seen so far. */
  lemma NewItemIsLast(rows: seq<Row>, i: nat, groups: seq<Group>)
    requires i < |rows| && HoldsMembers(rows[..i], groups)
    ensures forall a :: 0 <= a < |groups| ==> groups[a].items[0].sheetRow < i + 2
  {
    forall a | 0 <= a < |groups| ensures groups[a].items[0].sheetRow < i + 2 {
      MembersFromRows(rows[..i], groups[a].platform);
      assert groups[a].items[0] in Members(rows[..i], groups[a].platform);
    }
  }

  lemma CollectStepKnown(rows: seq<Row>, i: nat, groups: seq<Group>, k: nat)
    requires i < |rows| && Collected(rows[..i], groups)
    requires k < |groups| && groups[k].platform == PlatformOf(rows[i])
    ensures Collected(rows[..i + 1], groups[k := Group(PlatformOf(rows[i]), groups[k].items + [ItemOf(rows[i], i)])])
  {
    var key, item := PlatformOf(rows[i]), ItemOf(rows[i], i);
    var next := groups[k := Group(key, groups[k].items + [item])];
    MembersStep(rows, i);
    TotalItemsUpdate(groups, k, next[k]);
    assert Platforms(next) == Platforms(groups);
    assert HoldsMembers(rows[..i + 1], next) by {
      forall a | 0 <= a < |next|
        ensures next[a].items == Members(rows[..i + 1], next[a].platform) && next[a].items != []
      {
        if a != k { assert next[a] == groups[a]; }
      }
    }
    assert FirstSeenOrder(next) by {
      forall a | 0 <= a < |next| ensures next[a].items[0] == groups[a].items[0] { }
    }
  }

  lemma CollectStepNew(rows: seq<Row>, i: nat, groups: seq<Group>)
    requires i < |rows| && Collected(rows[..i], groups)
    requires PlatformOf(rows[i]) !in Platforms(groups)
    ensures Collected(rows[..i + 1], groups + [Group(PlatformOf(rows[i]), [ItemOf(rows[i], i)])])
  {
    var key, item := PlatformOf(rows[i]), ItemOf(rows[i], i);
    var next := groups + [Group(key, [item])];
    MembersStep(rows, i);
    NewItemIsLast(rows, i, groups);
    TotalItemsAppend(groups, next[|groups|]);
    assert Platforms(next) == Platforms(groups) + [key];
    assert DistinctPlatforms(next) by {
      forall a | 0 <= a < |groups| ensures groups[a].platform != key {
        assert Platforms(groups)[a] == groups[a].platform;
      }
    }
    assert HoldsMembers(rows[..i + 1], next) by {
      forall a | 0 <= a < |next|
        ensures next[a].items == Members(rows[..i + 1], next[a].platform) && next[a].items != []
      {
        if a < |groups| { assert next[a] == groups[a]; }
      }
    }
    assert CoversRows(rows[..i + 1], next) by {
      forall other | other !in Platforms(next) ensures Members(rows[..i + 1], other) == [] {
        assert other != key && other !in Platforms(groups);
      }
    }
    assert FirstSeenOrder(next) by {
      forall a, b | 0 <= a < b < |next| ensures next[a].items[0].sheetRow < next[b].items[0].sheetRow {
        assert next[a] == groups[a];
        if b < |groups| { assert next[b] == groups[b]; }
      }
    }
  }

  lemma CollectStep(rows: seq<Row>, i: nat, groups: seq<Group>)
    requires i < |rows| && Collected(rows[..i], groups)
    ensures Collected(rows[..i + 1], AddItem(groups, PlatformOf(rows[i]), ItemOf(rows[i], i)))
  {
    match IndexOf(groups, PlatformOf(rows[i]))
    case Some(k) => CollectStepKnown(rows, i, groups, k);
    case None => CollectStepNew(rows, i, groups);
  }

  /** The first loop of `displayGrouped`. */
  method CollectGroups(rows: seq<Row>) returns (groups: seq<Group>)
    ensures Collected(rows, groups)
  {
    groups := [];
    var i := 0;
    while i < |rows|
      invariant i <= |rows|
      invariant Collected(rows[..i], groups)
    {
      CollectStep(rows, i, groups);
      groups := AddItem(groups, PlatformOf(rows[i]), ItemOf(rows[i], i));
      i := i + 1;
    }
    assert rows[..i] == rows;
  }

  // ---------------------------------------------------------------------------
  // The sort of every card, and the whole view

  /** The second `forEach`: every card keeps its place and its items, and a card whose items are
      in input order comes out in the stable comparator order. */
  function SortGroups(groups: seq<Group>): (r: seq<Group>)
    ensures |r| == |groups|
    ensures forall a :: 0 <= a < |r| ==>
              && r[a].platform == groups[a].platform
              && multiset(r[a].items) == multiset(groups[a].items)
              && (ItemSort.IncreasingRows(groups[a].items) ==> ItemSort.StrictlySorted(r[a].items))
  {
    var r := seq(|groups|, a requires 0 <= a < |groups| => Group(groups[a].platform, ItemSort.SortItems(groups[a].items)));
    forall a | 0 <= a < |groups| && ItemSort.IncreasingRows(groups[a].items)
      ensures ItemSort.StrictlySorted(r[a].items)
    {
      ItemSort.SortStable(groups[a].items);
    }
    r
  }

  lemma {:induction false} TotalItemsSorted(groups: seq<Group>)
    ensures TotalItems(SortGroups(groups)) == TotalItems(groups)
  {
    if groups != [] {
      assert SortGroups(groups)[1..] == SortGroups(groups[1..]);
      TotalItemsSorted(groups[1..]);
    }
  }

  /** Every row's platform has a card. */
  predicate HasCardForEveryRow(rows: seq<Row>, groups: seq<Group>) {
    forall k :: 0 <= k < |rows| ==> PlatformOf(rows[k]) in Platforms(groups)
  }

  /** Card `a` holds exactly the items of its platform's rows (a permutation of them), in the
      stable sorted order. */
  ghost predicate CardIsSortedMembers(rows: seq<Row>, g: Group) {
    && Members(rows, g.platform) != []
    && multiset(g.items) == multiset(Members(rows, g.platform))
    && ItemSort.StrictlySorted(g.items)
  }

  /** Cards come in the order of their platform's first row. */
  ghost predicate CardsInFirstRowOrder(rows: seq<Row>, groups: seq<Group>)
    requires forall a :: 0 <= a < |groups| ==> Members(rows, groups[a].platform) != []
  {
    forall a, b :: 0 <= a < b < |groups| ==>
      Members(rows, groups[a].platform)[0].sheetRow < Members(rows, groups[b].platform)[0].sheetRow
  }

  /** The list view of `rows`: one card per distinct platform and a card for the platform of
      every row; each card sorted and holding exactly its platform's items; cards in the order
      of their platform's first row; no item lost or duplicated overall. */
  ghost predicate IsListView(rows: seq<Row>, groups: seq<Group>) {
    && DistinctPlatforms(groups)
    && HasCardForEveryRow(rows, groups)
    && (forall a :: 0 <= a < |groups| ==> CardIsSortedMembers(rows, groups[a]))
    && (forall a :: 0 <= a < |groups| ==> Members(rows, groups[a].platform) != [])
    && CardsInFirstRowOrder(rows, groups)
    && TotalItems(groups) == |rows|
  }

  /** `displayGrouped` without the markup: collect, then sort every card. */
  method DisplayGroups(rows: seq<Row>) returns (groups: seq<Group>)
    ensures IsListView(rows, groups)
  {
    var collected := CollectGroups(rows);
    groups := SortGroups(collected);
    forall a | 0 <= a < |groups|
      ensures ItemSort.StrictlySorted(groups[a].items)
    {
      MembersFromRows(rows, collected[a].platform);
    }
    forall k | 0 <= k < |rows| ensures PlatformOf(rows[k]) in Platforms(groups) {
      MembersComplete(rows, PlatformOf(rows[k]), k);
      assert Platforms(groups) == Platforms(collected);
    }
    TotalItemsSorted(collected);
  }

  // ---------------------------------------------------------------------------
  // Consequences

  /** Each row's item is in exactly one card, the card of its platform. */
  lemma EveryRowInOneGroup(rows: seq<Row>, groups: seq<Group>, k: nat)
    requires IsListView(rows, groups) && k < |rows|
    ensures exists a :: 0 <= a < |groups| && groups[a].platform == PlatformOf(rows[k])
    ensures forall a :: 0 <= a < |groups| ==>
              (ItemOf(rows[k], k) in groups[a].items <==> groups[a].platform == PlatformOf(rows[k]))
  {
    var ps := Platforms(groups);
    assert PlatformOf(rows[k]) in ps;
    var a0 :| 0 <= a0 < |ps| && ps[a0] == PlatformOf(rows[k]);
    assert groups[a0].platform == PlatformOf(rows[k]);
    forall a | 0 <= a < |groups|
      ensures ItemOf(rows[k], k) in groups[a].items <==> groups[a].platform == PlatformOf(rows[k])
    {
      InCardIffPlatform(rows, groups[a], k);
    }
  }

  lemma InCardIffPlatform(rows: seq<Row>, g: Group, k: nat)
    requires CardIsSortedMembers(rows, g) && k < |rows|
    ensures ItemOf(rows[k], k) in g.items <==> g.platform == PlatformOf(rows[k])
  {
    var x := ItemOf(rows[k], k);
    MembersFromRows(rows, g.platform);
    if g.platform == PlatformOf(rows[k]) {
      MembersComplete(rows, g.platform, k);
      assert x in multiset(Members(rows, g.platform));
      assert x in multiset(g.items);
    }
    if x in g.items {
      assert x in multiset(g.items);
      assert x in Members(rows, g.platform);
    }
  }

  /** Every item shown stands for the row its sheet row names, under that row's platform. */
  lemma ItemsNameTheirRows(rows: seq<Row>, g: Group, x: Item)
    requires CardIsSortedMembers(rows, g) && x in g.items
    ensures 2 <= x.sheetRow < |rows| + 2
    ensures x == ItemOf(rows[x.sheetRow - 2], x.sheetRow - 2)
    ensures PlatformOf(rows[x.sheetRow - 2]) == g.platform
  {
    var m := Members(rows, g.platform);
    assert x in multiset(m) by {
      assert x in multiset(g.items);
    }
    assert x in m;
    MembersFromRows(rows, g.platform);
  }

  // ---------------------------------------------------------------------------
  // The view is determined by the rows

  /** The sheet row of a platform's first row (0 when it has none). */
  ghost function FirstRow(rows: seq<Row>, key: string): int {
    var m := Members(rows, key);
    if m == [] then 0 else m[0].sheetRow
  }

  /** Two key sequences strictly ordered by the same ranking and holding the same keys are equal. */
  lemma {:induction false} RankedKeysUnique(p: seq<string>, q: seq<string>, rank: string -> int)
    requires forall i, j :: 0 <= i < j < |p| ==> rank(p[i]) < rank(p[j])
    requires forall i, j :: 0 <= i < j < |q| ==> rank(q[i]) < rank(q[j])
    requires forall k :: k in p <==> k in q
    ensures p == q
  {
    if p == [] {
      HeadIsMember(q);
    } else {
      assert |q| > 0 by { assert p[0] in p; }
      RankedHeadsEqual(p, q, rank);
      assert p == [p[0]] + p[1..] && q == [q[0]] + q[1..];
      forall key ensures key in p[1..] <==> key in q[1..] {
        if key in p[1..] {
          var j :| 0 <= j < |p[1..]| && p[1..][j] == key;
          assert rank(p[0]) < rank(p[j + 1]);
          assert key in q && key != q[0];
        }
        if key in q[1..] {
          var j :| 0 <= j < |q[1..]| && q[1..][j] == key;
          assert rank(q[0]) < rank(q[j + 1]);
          assert key in p && key != p[0];
        }
      }
      RankedKeysUnique(p[1..], q[1..], rank);
    }
  }

  /** The head of a non-empty sequence is a member, stated apart for the empty case of
      `RankedKeysUnique`. */
  lemma HeadIsMember(q: seq<string>)
    ensures q != [] ==> q[0] in q
  {
  }

  lemma RankedHeadsEqual(p: seq<string>, q: seq<string>, rank: string -> int)
    requires p != [] && q != []
    requires forall i, j :: 0 <= i < j < |p| ==> rank(p[i]) < rank(p[j])
    requires forall i, j :: 0 <= i < j < |q| ==> rank(q[i]) < rank(q[j])
    requires forall k :: k in p <==> k in q
    ensures p[0] == q[0]
  {
    assert p[0] in p && q[0] in q;
    var k :| 0 <= k < |q| && q[k] == p[0];
    var m :| 0 <= m < |p| && p[m] == q[0];
  }

  /** A card's platform is the platform of some row, hence has a card in any list view. */
  lemma CardPlatformHasRow(rows: seq<Row>, groups: seq<Group>, other: seq<Group>, a: nat)
    requires IsListView(rows, groups) && IsListView(rows, other) && a < |groups|
    ensures groups[a].platform in Platforms(other)
  {
    var key := groups[a].platform;
    assert CardIsSortedMembers(rows, groups[a]);
    MembersFromRows(rows, key);
    var x := Members(rows, key)[0];
    assert x in Members(rows, key);
    assert MemberOfRow(rows, key, x);
    assert HasCardForEveryRow(rows, other);
    assert PlatformOf(rows[x.sheetRow - 2]) in Platforms(other);
  }

  /** `IsListView` pins the view down completely: the cards, their order and the order of the
      items in each are all determined by the rows. */
  lemma ListViewUnique(rows: seq<Row>, g1: seq<Group>, g2: seq<Group>)
    requires IsListView(rows, g1) && IsListView(rows, g2)
    ensures g1 == g2
  {
    var p1, p2 := Platforms(g1), Platforms(g2);
    var rank := key => FirstRow(rows, key);
    forall key ensures key in p1 <==> key in p2 {
      if key in p1 {
        var a :| 0 <= a < |p1| && p1[a] == key;
        CardPlatformHasRow(rows, g1, g2, a);
      }
      if key in p2 {
        var a :| 0 <= a < |p2| && p2[a] == key;
        CardPlatformHasRow(rows, g2, g1, a);
      }
    }
    forall i, j | 0 <= i < j < |p1| ensures rank(p1[i]) < rank(p1[j]) {
      assert CardsInFirstRowOrder(rows, g1);
    }
    forall i, j | 0 <= i < j < |p2| ensures rank(p2[i]) < rank(p2[j]) {
      assert CardsInFirstRowOrder(rows, g2);
    }
    RankedKeysUnique(p1, p2, rank);
    forall a | 0 <= a < |g1| ensures g1[a] == g2[a] {
      assert g1[a].platform == g2[a].platform;
      assert CardIsSortedMembers(rows, g1[a]) && CardIsSortedMembers(rows, g2[a]);
      ItemSort.SortedUnique(g1[a].items, g2[a].items);
    }
  }

  // ---------------------------------------------------------------------------
  // The grouping object as written

  /** Names every plain JavaScript object inherits from `Object.prototype`. `groups[name]` is
      already truthy for them (a function, or the prototype itself) before any card exists. */
  const InheritedNames: set<string> := {
    "constructor", "__proto__", "toString", "toLocaleString", "valueOf", "hasOwnProperty",
    "isPrototypeOf", "propertyIsEnumerable", "__defineGetter__", "__defineSetter__",
    "__lookupGetter__", "__lookupSetter__"}

  /** One iteration of the loop as written over a plain object: for an inherited name the
      `!groups[platform]` test finds the inherited value, no card is opened, and the `push`
      throws, which aborts the whole view (`None`). The names that behave so are a parameter,
      `InheritedNames` in the browser. */
  function AddItemAsWritten(inherited: set<string>, groups: seq<Group>, key: string, item: Item)
    : (r: Option<seq<Group>>)
    ensures r.None? <==> key !in Platforms(groups) && key in inherited
    ensures r.Some? ==> r.value == AddItem(groups, key, item)
  {
    if key !in Platforms(groups) && key in inherited then None
    else Some(AddItem(groups, key, item))
  }

  /** The first `forEach` as written. It only fails at a row whose platform is inherited. */
  function CollectAsWritten(inherited: set<string>, rows: seq<Row>): (r: Option<seq<Group>>)
    ensures r.None? ==> exists k :: 0 <= k < |rows| && PlatformOf(rows[k]) in inherited
    decreases |rows|
  {
    if rows == [] then Some([])
    else
      var n := |rows| - 1;
      match CollectAsWritten(inherited, rows[..n])
      case None =>
        var k :| 0 <= k < n && PlatformOf(rows[..n][k]) in inherited;
        assert rows[..n][k] == rows[k];
        None
      case Some(groups) => AddItemAsWritten(inherited, groups, PlatformOf(rows[n]), ItemOf(rows[n], n))
  }

  /** Where the grouping as written does not fail, it builds exactly the cards the corrected
      grouping does. */
  lemma {:induction false} AsWrittenIsCollected(inherited: set<string>, rows: seq<Row>)
    requires CollectAsWritten(inherited, rows).Some?
    ensures Collected(rows, CollectAsWritten(inherited, rows).value)
    decreases |rows|
  {
    if rows == [] {
      assert Collected(rows, []) by {
        forall key ensures Members(rows, key) == [] { }
      }
    } else {
      var n := |rows| - 1;
      AsWrittenIsCollected(inherited, rows[..n]);
      var groups := CollectAsWritten(inherited, rows[..n]).value;
      CollectStep(rows, n, groups);
      assert rows[..n + 1] == rows;
    }
  }

  lemma {:induction false} AsWrittenHasNoInheritedCard(inherited: set<string>, rows: seq<Row>)
    ensures CollectAsWritten(inherited, rows).Some? ==>
              forall p :: p in Platforms(CollectAsWritten(inherited, rows).value) ==> p !in inherited
  {
    if rows != [] {
      var n := |rows| - 1;
      AsWrittenHasNoInheritedCard(inherited, rows[..n]);
      if CollectAsWritten(inherited, rows[..n]).Some? {
        var groups := CollectAsWritten(inherited, rows[..n]).value;
        var key := PlatformOf(rows[n]);
        match IndexOf(groups, key)
        case Some(k) =>
          assert Platforms(AddItem(groups, key, ItemOf(rows[n], n))) == Platforms(groups);
        case None =>
          assert Platforms(AddItem(groups, key, ItemOf(rows[n], n))) == Platforms(groups) + [key];
      }
    }
  }

  /** The step at a row whose platform is an inherited name fails. */
  lemma FailsAtInheritedName(inherited: set<string>, rows: seq<Row>, k: nat)
    requires k < |rows| && PlatformOf(rows[k]) in inherited
    ensures CollectAsWritten(inherited, rows[..k + 1]) == None
  {
    var upto := rows[..k + 1];
    assert upto[..k] == rows[..k];
    AsWrittenHasNoInheritedCard(inherited, rows[..k]);
  }

  /** Once a prefix has failed, every longer input fails too. */
  lemma {:induction false} FailureIsFinal(inherited: set<string>, rows: seq<Row>, m: nat)
    requires m <= |rows| && CollectAsWritten(inherited, rows[..m]) == None
    ensures CollectAsWritten(inherited, rows) == None
    decreases |rows| - m
  {
    if m == |rows| {
      assert rows[..m] == rows;
    } else {
      assert rows[..m + 1][..m] == rows[..m];
      FailureIsFinal(inherited, rows, m + 1);
    }
  }

  /** As written, a single row whose platform is an inherited name makes the list fail to render
      at all, whereas `DisplayGroups` shows it under its own card. */
  lemma AsWrittenFailsOnInheritedName(inherited: set<string>, rows: seq<Row>, k: nat)
    requires k < |rows| && PlatformOf(rows[k]) in inherited
    ensures CollectAsWritten(inherited, rows) == None
  {
    FailsAtInheritedName(inherited, rows, k);
    FailureIsFinal(inherited, rows, k + 1);
  }

  /** The smallest such input: one row on platform "constructor". */
  lemma ConstructorPlatformBreaksList()
    ensures CollectAsWritten(InheritedNames, [Row(Some("Mug"), Some("constructor"), JsValues.Bool(false))]) == None
  {
    AsWrittenFailsOnInheritedName(InheritedNames, [Row(Some("Mug"), Some("constructor"), JsValues.Bool(false))], 0);
  }
}
