/**
 * The tag statistics script (src/test-list-all-tags.ts): the movies and series
 * of the media server are listed with their `Tags`, every tag occurrence is
 * counted in a `Map`, the entries are printed sorted by ascending count, and a
 * summary gives the number of distinct tags, of items, and of items without
 * tags. The request is replaced by the `Items` field of its reply.
 */
module TagStats {
  import opened Wrappers
  import opened JsStrings
  import opened Frequency

  /** A movie or series with its optional `Tags` field. */
  datatype Item = Item(tags: Option<seq<string>>)

  function TagsOf(item: Item): seq<string> {
    if item.tags.Some? then item.tags.value else []
  }

  /** Every tag occurrence, item after item. */
  function AllTags(items: seq<Item>): seq<string>
  {
    if items == [] then [] else AllTags(items[..|items| - 1]) + TagsOf(items[|items| - 1])
  }

  /** `!item.Tags || item.Tags.length === 0`. */
  predicate Untagged(item: Item) {
    item.tags.None? || item.tags.value == []
  }

  /** A tag is counted exactly when some item carries it. */
  lemma {:induction false} AllTagsSpec(items: seq<Item>)
    ensures forall t :: t in AllTags(items) <==> exists i :: 0 <= i < |items| && t in TagsOf(items[i])
    ensures AllTags(items) == [] <==> forall i :: 0 <= i < |items| ==> Untagged(items[i])
  {
    if items != [] {
      var n := |items| - 1;
      AllTagsSpec(items[..n]);
      assert forall i :: 0 <= i < n ==> items[..n][i] == items[i];
    }
  }

  /** The tags of the first `i + 1` items are those of the first `i` followed by item `i`'s. */
  lemma AllTagsPrefix(items: seq<Item>, i: nat)
    requires i < |items|
    ensures AllTags(items[..i + 1]) == AllTags(items[..i]) + TagsOf(items[i])
  {
    assert items[..i + 1][..i] == items[..i];
  }

  /**
   * The nested `forEach`: every tag of every tagged item is counted, in order,
   * so the map ends up holding the tally of all tag occurrences.
   */
  method CountTags(items: seq<Item>) returns (tagCounts: CountMap)
    ensures fresh(tagCounts)
    ensures tagCounts.Valid() && tagCounts.seen == AllTags(items)
  {
    tagCounts := new CountMap();
    for i := 0 to |items|
      invariant tagCounts.Valid() && tagCounts.seen == AllTags(items[..i])
    {
      AllTagsPrefix(items, i);
      if items[i].tags.Some? && |items[i].tags.value| > 0 {
        CountEach(tagCounts, items[i].tags.value);
      } else {
        assert AllTags(items[..i + 1]) == AllTags(items[..i]);
      }
    }
    assert items[..|items|] == items;
  }

  /** The inner `forEach`: one increment per occurrence, in order. */
  method CountEach(tagCounts: CountMap, tags: seq<string>)
    requires tagCounts.Valid()
    modifies tagCounts
    ensures tagCounts.Valid() && tagCounts.seen == old(tagCounts.seen) + tags
  {
    ghost var start := tagCounts.seen;
    for j := 0 to |tags|
      invariant tagCounts.Valid() && tagCounts.seen == start + tags[..j]
    {
      ghost var before := tagCounts.seen;
      tagCounts.Increment(tags[j]);
      CountNext(start, tags, j, before);
    }
    assert tags[..|tags|] == tags;
  }

  /**
   * `main` on the reply's `Items`: nothing when they are missing or empty;
   * otherwise the map's entries sorted by ascending count, the number of
   * distinct tags, the number of items, and the number of untagged items.
   */
  method Statistics(items: Option<seq<Item>>) returns (r: Option<Report>)
    ensures r.None? <==> items.None? || items.value == []
    ensures r.Some? ==>
              var tags := AllTags(items.value);
              && multiset(r.value.sorted) == multiset(Tally(tags))
              && SortedByCount(r.value.sorted) && Stable(r.value.sorted, Tally(tags))
              && r.value.unique == |CountsOf(tags)|
              && r.value.processed == |items.value|
              && r.value.without == |Filter(Untagged, items.value)|
  {
    if items.None? || |items.value| == 0 {
      return None;
    }
    var tagCounts := CountTags(items.value);
    var sortedTags := tagCounts.Entries();
    SortByCount(sortedTags);
    r := Some(Report(sortedTags[..], |tagCounts.counts|, |items.value|, |Filter(Untagged, items.value)|));
  }

  /**
   * What the report says: each listed tag once, with its number of occurrences
   * over all items (repeats within an item included), ascending; every tag that
   * occurs is listed; the counts add up to the number of occurrences; the
   * untagged items are all the items exactly when no tag occurs.
   */
  lemma ReportSpec(items: seq<Item>, sorted: seq<(string, nat)>)
    requires multiset(sorted) == multiset(Tally(AllTags(items)))
    ensures forall e :: e in sorted <==>
              (exists i :: 0 <= i < |items| && e.0 in TagsOf(items[i])) && e.1 == multiset(AllTags(items))[e.0]
    ensures SumCounts(Tally(AllTags(items))) == |AllTags(items)|
    ensures |Filter(Untagged, items)| == |items| <==> AllTags(items) == []
  {
    var tags := AllTags(items);
    TallySpec(tags);
    AllTagsSpec(items);
    TallySum(tags);
    FilterKeepsAll(Untagged, items);
    forall e | e in sorted
      ensures e in Tally(tags)
    {
      assert e in multiset(sorted);
    }
    forall e | e in Tally(tags)
      ensures e in sorted
    {
      assert e in multiset(Tally(tags));
    }
  }

  /** A tag repeated within one item counts twice: the item `[t, u, t]` tallies `t` twice and `u` once. */
  lemma RepeatsCount(t: string, u: string)
    requires t != u
    ensures Tally(AllTags([Item(Some([t, u, t]))])) == [(t, 2), (u, 1)]
  {
    var xs := [t, u, t];
    assert AllTags([Item(Some(xs))]) == xs by {
      assert [Item(Some(xs))][..0] == [];
    }
    assert FirstOrder(xs) == [t, u] by {
      FirstOrderSnoc([], t);
      assert [] + [t] == [t];
      FirstOrderSnoc([t], u);
      assert [t] + [u] == [t, u];
      FirstOrderSnoc([t, u], t);
      assert [t, u] + [t] == xs;
    }
    assert multiset(xs)[t] == 2 && multiset(xs)[u] == 1;
  }
}
