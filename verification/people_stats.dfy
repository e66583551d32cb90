/**
 * The actor and director statistics script
 * (src/test-list-all-actors-and-directors.ts). Movies and series are listed
 * with their `People`. Every person named and typed `Actor` or `Director` is
 * counted by name alone in one `Map`. The entries are printed sorted by
 * ascending count. The summary gives the number of distinct names, the number
 * of items, and the number of items without people. The request is replaced by
 * the `Items` field of its reply.
 */
module PeopleStats {
  import opened Wrappers
  import opened JsStrings
  import opened Frequency

  /** A credited person; `Type` is the role (`Actor`, `Director`, `Writer`, ...). */
  datatype Person = Person(name: Option<string>, kind: Option<string>)

  /** A movie or series with its optional `People` field. */
  datatype Item = Item(people: Option<seq<Person>>)

  /** `person.Name && (person.Type === 'Actor' || person.Type === 'Director')`. */
  predicate Counted(p: Person) {
    && p.name.Some? && p.name.value != ""
    && (p.kind == Some("Actor") || p.kind == Some("Director"))
  }

  function PeopleOf(item: Item): seq<Person> {
    if item.people.Some? then item.people.value else []
  }

  /** The names counted for a list of people, in order. */
  function NamesOf(people: seq<Person>): seq<string>
  {
    if people == [] then []
    else
      var last := people[|people| - 1];
      NamesOf(people[..|people| - 1]) + (if Counted(last) then [last.name.value] else [])
  }

  /** Every counted name occurrence, item after item. */
  function AllNames(items: seq<Item>): seq<string>
  {
    if items == [] then [] else AllNames(items[..|items| - 1]) + NamesOf(PeopleOf(items[|items| - 1]))
  }

  /** `!item.People || item.People.length === 0`. */
  predicate Unpeopled(item: Item) {
    item.people.None? || item.people.value == []
  }

  /** A name is counted exactly when some listed person with a counted role has it. */
  lemma {:induction false} NamesOfSpec(people: seq<Person>)
    ensures forall n :: n in NamesOf(people) <==> exists k :: 0 <= k < |people| && Counted(people[k]) && people[k].name.value == n
  {
    if people != [] {
      var m := |people| - 1;
      NamesOfSpec(people[..m]);
      assert forall k :: 0 <= k < m ==> people[..m][k] == people[k];
    }
  }

  lemma {:induction false} AllNamesSpec(items: seq<Item>)
    ensures forall n :: n in AllNames(items) <==> exists i :: 0 <= i < |items| && n in NamesOf(PeopleOf(items[i]))
  {
    if items != [] {
      var m := |items| - 1;
      var init := items[..m];
      AllNamesSpec(init);
      assert AllNames(items) == AllNames(init) + NamesOf(PeopleOf(items[m]));
      forall n
        ensures n in AllNames(items) <==> exists i :: 0 <= i < |items| && n in NamesOf(PeopleOf(items[i]))
      {
        if n in AllNames(init) {
          var i :| 0 <= i < m && n in NamesOf(PeopleOf(init[i]));
          assert init[i] == items[i];
        } else if n !in NamesOf(PeopleOf(items[m])) {
          forall i | 0 <= i < |items|
            ensures n !in NamesOf(PeopleOf(items[i]))
          {
            if i < m {
              assert init[i] == items[i];
            }
          }
        }
      }
    }
  }

  lemma AllNamesPrefix(items: seq<Item>, i: nat)
    requires i < |items|
    ensures AllNames(items[..i + 1]) == AllNames(items[..i]) + NamesOf(PeopleOf(items[i]))
  {
    assert items[..i + 1][..i] == items[..i];
  }

  lemma NamesOfPrefix(people: seq<Person>, j: nat)
    requires j < |people|
    ensures NamesOf(people[..j + 1]) == NamesOf(people[..j]) + (if Counted(people[j]) then [people[j].name.value] else [])
  {
    assert people[..j + 1][..j] == people[..j];
  }

  /**
   * The nested `forEach`: every actor and director of every item with people is
   * counted by name, in order, so the map ends up holding the tally of all
   * counted names.
   */
  method CountPeople(items: seq<Item>) returns (peopleCounts: CountMap)
    ensures fresh(peopleCounts)
    ensures peopleCounts.Valid() && peopleCounts.seen == AllNames(items)
  {
    peopleCounts := new CountMap();
    for i := 0 to |items|
      invariant peopleCounts.Valid() && peopleCounts.seen == AllNames(items[..i])
    {
      AllNamesPrefix(items, i);
      if items[i].people.Some? && |items[i].people.value| > 0 {
        CountCredited(peopleCounts, items[i].people.value);
      } else {
        assert AllNames(items[..i + 1]) == AllNames(items[..i]);
      }
    }
    assert items[..|items|] == items;
  }

  /** The inner `forEach`: each counted person's name is incremented, the others are skipped. */
  method CountCredited(peopleCounts: CountMap, people: seq<Person>)
    requires peopleCounts.Valid()
    modifies peopleCounts
    ensures peopleCounts.Valid() && peopleCounts.seen == old(peopleCounts.seen) + NamesOf(people)
  {
    ghost var start := peopleCounts.seen;
    assert people[..0] == [];
    for j := 0 to |people|
      invariant peopleCounts.Valid() && peopleCounts.seen == start + NamesOf(people[..j])
    {
      NamesOfPrefix(people, j);
      if Counted(people[j]) {
        ghost var before := peopleCounts.seen;
        peopleCounts.Increment(people[j].name.value);
        CountAfter(start, NamesOf(people[..j]), people[j].name.value, before);
      } else {
        assert NamesOf(people[..j]) + [] == NamesOf(people[..j]);
      }
    }
    assert people[..|people|] == people;
  }

  /**
   * `main` on the reply's `Items`: nothing when they are missing or empty.
   * Otherwise: the map's entries sorted by ascending count, the number of
   * distinct names, the number of items, and the number of items whose
   * `People` is missing or empty.
   */
  method Statistics(items: Option<seq<Item>>) returns (r: Option<Report>)
    ensures r.None? <==> items.None? || items.value == []
    ensures r.Some? ==>
              var names := AllNames(items.value);
              && multiset(r.value.sorted) == multiset(Tally(names))
              && SortedByCount(r.value.sorted) && Stable(r.value.sorted, Tally(names))
              && r.value.unique == |CountsOf(names)|
              && r.value.processed == |items.value|
              && r.value.without == |Filter(Unpeopled, items.value)|
  {
    if items.None? || |items.value| == 0 {
      return None;
    }
    var peopleCounts := CountPeople(items.value);
    var sortedPeople := peopleCounts.Entries();
    SortByCount(sortedPeople);
    r := Some(Report(sortedPeople[..], |peopleCounts.counts|, |items.value|, |Filter(Unpeopled, items.value)|));
  }

  /**
   * What the report says: each listed name once, with the number of times it is
   * credited as actor or director over all items; every such name is listed and
   * no other; the counts add up to the number of such credits.
   */
  lemma ReportSpec(items: seq<Item>, sorted: seq<(string, nat)>)
    requires multiset(sorted) == multiset(Tally(AllNames(items)))
    ensures forall e :: e in sorted <==>
              (exists i, k :: && 0 <= i < |items| && 0 <= k < |PeopleOf(items[i])|
                              && Counted(PeopleOf(items[i])[k]) && PeopleOf(items[i])[k].name.value == e.0)
              && e.1 == multiset(AllNames(items))[e.0]
    ensures SumCounts(Tally(AllNames(items))) == |AllNames(items)|
  {
    var names := AllNames(items);
    TallySpec(names);
    AllNamesSpec(items);
    TallySum(names);
    forall n
      ensures n in names <==> exists i, k :: && 0 <= i < |items| && 0 <= k < |PeopleOf(items[i])|
                                             && Counted(PeopleOf(items[i])[k]) && PeopleOf(items[i])[k].name.value == n
    {
      forall i | 0 <= i < |items| {
        NamesOfSpec(PeopleOf(items[i]));
      }
    }
    forall e | e in sorted
      ensures e in Tally(names)
    {
      assert e in multiset(sorted);
    }
    forall e | e in Tally(names)
      ensures e in sorted
    {
      assert e in multiset(Tally(names));
    }
  }

  /** Counting is by name alone: someone credited as both actor and director of one item counts twice. */
  lemma ActorAndDirector(n: string)
    requires n != ""
    ensures Tally(AllNames([Item(Some([Person(Some(n), Some("Actor")), Person(Some(n), Some("Director"))]))])) == [(n, 2)]
  {
    BothRolesNamed(n);
    TallyOfTwice(n);
  }

  lemma BothRolesNamed(n: string)
    requires n != ""
    ensures AllNames([Item(Some([Person(Some(n), Some("Actor")), Person(Some(n), Some("Director"))]))]) == [n] + [n]
  {
    var a, d := Person(Some(n), Some("Actor")), Person(Some(n), Some("Director"));
    assert NamesOf([a, d]) == [n, n] by {
      NamesOfPrefix([a, d], 0);
      NamesOfPrefix([a, d], 1);
      assert [a, d][..0] == [] && [a, d][..1] == [a] && [a, d][..2] == [a, d];
    }
    assert [Item(Some([a, d]))][..0] == [];
  }

  lemma TallyOfTwice(n: string)
    ensures Tally([n] + [n]) == [(n, 2)]
  {
    TallyOfOne(n);
    TallySnocOld([n], n, 0);
  }

  lemma TallyOfOne(n: string)
    ensures FirstOrder([n]) == [n] && Tally([n]) == [(n, 1)]
  {
    TallySnocNew([], n);
    FirstOrderSnoc([], n);
    assert [] + [n] == [n];
  }

  /**
   * An item whose people are all of other roles (writers, producers) adds no
   * name. Its `People` list is not empty, so it is not counted among the items
   * without people either.
   */
  lemma OtherRolesOnly(people: seq<Person>)
    requires people != [] && forall k :: 0 <= k < |people| ==> !Counted(people[k])
    ensures NamesOf(people) == []
    ensures !Unpeopled(Item(Some(people)))
  {
    NamesOfSpec(people);
  }

  /** An item without people adds no name; the converse fails (see `OtherRolesOnly`). */
  lemma UnpeopledAddsNothing(items: seq<Item>)
    requires |Filter(Unpeopled, items)| == |items|
    ensures AllNames(items) == []
  {
    FilterKeepsAll(Unpeopled, items);
    NoPeopleNoNames(items);
  }

  lemma {:induction false} NoPeopleNoNames(items: seq<Item>)
    requires forall i :: 0 <= i < |items| ==> Unpeopled(items[i])
    ensures AllNames(items) == []
  {
    if items != [] {
      var m := |items| - 1;
      assert forall i :: 0 <= i < m ==> items[..m][i] == items[i];
      NoPeopleNoNames(items[..m]);
      assert PeopleOf(items[m]) == [];
    }
  }
}
