/** The saved-places screen: the saved locations grouped into folders keyed by the
    location type with an "s" appended, folders in order of first appearance. */
module SavedScreen {
  import opened Common
  import opened Locations
  import opened Sorting

  /** `item.type + 's'` */
  function Key(item: Location): string
  {
    item.kind + "s"
  }

  /** Keys in order of first appearance; `Object.entries` keeps that order because no key
      ending in "s" is an array index. */
  function Keys(items: seq<Location>): (r: seq<string>)
    ensures Distinct(r)
    ensures forall k :: k in r <==> exists x :: x in items && Key(x) == k
  {
    if items == [] then []
    else
      var init := items[..|items| - 1];
      var last := items[|items| - 1];
      var ks := Keys(init);
      assert forall x :: x in items <==> x in init || x == last;
      if Key(last) in ks then ks
      else
        assert forall i :: 0 <= i < |ks| ==> ks[i] in ks;
        ks + [Key(last)]
  }

  function HasKey(k: string): Location -> bool
  {
    (x: Location) => Key(x) == k
  }

  /** The folder for key k: the items of that type, in saved order. */
  function Group(items: seq<Location>, k: string): (r: seq<Location>)
    ensures forall x :: x in r <==> x in items && Key(x) == k
  {
    Filter(items, HasKey(k))
  }

  lemma GroupSnoc(items: seq<Location>, x: Location, k: string)
    ensures Group(items + [x], k) == Group(items, k) + (if Key(x) == k then [x] else [])
  {
    FilterAppend(items, [x], HasKey(k));
    assert Filter([x], HasKey(k)) == (if Key(x) == k then [x] else []) + Filter([x][1..], HasKey(k));
  }

  /** The folders built so far are exactly those of `items`. */
  ghost predicate Summarizes(items: seq<Location>, order: seq<string>, groups: map<string, seq<Location>>)
  {
    && order == Keys(items)
    && (forall k :: k in groups <==> k in order)
    && (forall k :: k in groups ==> groups[k] == Group(items, k))
  }

  /** Appending an item adds its key at the end when the key is new. */
  lemma KeysSnoc(items: seq<Location>, x: Location)
    ensures Keys(items + [x]) == if Key(x) in Keys(items) then Keys(items) else Keys(items) + [Key(x)]
  {
    assert (items + [x])[..|items|] == items;
  }

  lemma StepNewKey(items: seq<Location>, x: Location, order: seq<string>, groups: map<string, seq<Location>>)
    requires Summarizes(items, order, groups) && Key(x) !in groups
    ensures Summarizes(items + [x], order + [Key(x)], groups[Key(x) := [x]])
  {
    KeysSnoc(items, x);
    var after := groups[Key(x) := [x]];
    forall k | k in after ensures after[k] == Group(items + [x], k) {
      GroupSnoc(items, x, k);
      if k == Key(x) {
        FilterNone(items, HasKey(Key(x)));
      }
    }
  }

  lemma StepOldKey(items: seq<Location>, x: Location, order: seq<string>, groups: map<string, seq<Location>>)
    requires Summarizes(items, order, groups) && Key(x) in groups
    ensures Summarizes(items + [x], order, groups[Key(x) := groups[Key(x)] + [x]])
  {
    KeysSnoc(items, x);
    var after := groups[Key(x) := groups[Key(x)] + [x]];
    forall k | k in after ensures after[k] == Group(items + [x], k) {
      GroupSnoc(items, x, k);
    }
  }

  /** The `reduce`: the accumulator object is filled by `push`, creating each folder the
      first time its key comes up. */
  method Categorize(items: seq<Location>) returns (order: seq<string>, groups: map<string, seq<Location>>)
    ensures order == Keys(items)
    ensures forall k :: k in groups <==> k in order
    ensures forall k :: k in groups ==> groups[k] == Group(items, k)
  {
    order, groups := [], map[];
    for i := 0 to |items|
      invariant Summarizes(items[..i], order, groups)
    {
      var item := items[i];
      assert items[..i + 1] == items[..i] + [item];
      var key := item.kind + "s";
      if key !in groups {
        StepNewKey(items[..i], item, order, groups);
        groups := groups[key := []];
        order := order + [key];
      } else {
        StepOldKey(items[..i], item, order, groups);
      }
      groups := groups[key := groups[key] + [item]];
    }
    assert items[..|items|] == items;
  }

  // ------------------------------------------------------------ counts

  /** The folder counts, summed over the given keys. */
  function SumCounts(ks: seq<string>, items: seq<Location>): nat
  {
    if ks == [] then 0 else |Group(items, ks[0])| + SumCounts(ks[1..], items)
  }

  lemma {:induction false} SumCountsSnocItem(ks: seq<string>, items: seq<Location>, x: Location)
    requires Distinct(ks)
    ensures SumCounts(ks, items + [x]) == SumCounts(ks, items) + (if Key(x) in ks then 1 else 0)
  {
    if ks != [] {
      GroupSnoc(items, x, ks[0]);
      assert Distinct(ks[1..]) by {
        forall i, j | 0 <= i < j < |ks[1..]| ensures ks[1..][i] != ks[1..][j] {
          assert ks[1..][i] == ks[i + 1] && ks[1..][j] == ks[j + 1];
        }
      }
      SumCountsSnocItem(ks[1..], items, x);
      forall i | 0 <= i < |ks[1..]| ensures ks[1..][i] != ks[0] { assert ks[1..][i] == ks[i + 1]; }
      assert Key(x) in ks <==> Key(x) == ks[0] || Key(x) in ks[1..] by {
        assert ks == [ks[0]] + ks[1..];
      }
    }
  }

  lemma {:induction false} SumCountsSnocKey(ks: seq<string>, k: string, items: seq<Location>)
    ensures SumCounts(ks + [k], items) == SumCounts(ks, items) + |Group(items, k)|
  {
    if ks != [] {
      assert (ks + [k])[1..] == ks[1..] + [k];
      SumCountsSnocKey(ks[1..], k, items);
    } else {
      assert [k][1..] == [];
    }
  }

  /** The folder counts add up to the number of saved items. */
  lemma {:induction false} CountsAddUp(items: seq<Location>)
    ensures SumCounts(Keys(items), items) == |items|
  {
    if items != [] {
      var init := items[..|items| - 1];
      var x := items[|items| - 1];
      assert items == init + [x];
      CountsAddUp(init);
      var ks := Keys(init);
      SumCountsSnocItem(ks, init, x);
      if Key(x) !in ks {
        SumCountsSnocKey(ks, Key(x), items);
        GroupSnoc(init, x, Key(x));
        FilterNone(init, HasKey(Key(x)));
      }
    }
  }

  /** Every saved item is in the folder of its own key and in no other. */
  lemma OneFolderEach(items: seq<Location>, x: Location, k: string)
    requires x in items
    ensures Key(x) in Keys(items) && x in Group(items, Key(x))
    ensures k != Key(x) ==> x !in Group(items, k)
  {
  }

  /** Inside a folder the items keep their saved order. */
  lemma SavedOrderInFolder(items: seq<Location>, i: nat, j: nat)
    requires i < j < |items| && Key(items[i]) == Key(items[j])
    ensures exists a, b :: (0 <= a < b < |Group(items, Key(items[i]))|
      && Group(items, Key(items[i]))[a] == items[i] && Group(items, Key(items[i]))[b] == items[j])
  {
    FilterKeepsOrder(items, HasKey(Key(items[i])), i, j);
    var r := Filter(items, HasKey(Key(items[i])));
    var a, b :| 0 <= a < b < |r| && r[a] == items[i] && r[b] == items[j];
    assert Group(items, Key(items[i])) == r;
  }

  /** With no saved items the placeholder shows and there are no folders. */
  function ShowsPlaceholder(items: seq<Location>): (b: bool)
    ensures b <==> Keys(items) == []
  {
    assert items != [] ==> items[0] in items && Key(items[0]) in Keys(items);
    |items| == 0
  }
}
