/**
 * The frequency tables of the statistics scripts. A JavaScript `Map` from key
 * to count is filled with `m.set(k, (m.get(k) || 0) + 1)`, one occurrence at a
 * time. Its entries are listed in insertion order (`Array.from(m.entries())`)
 * and then sorted by ascending count. The reference for all of this is
 * `Tally(xs)`: each distinct key of `xs`, in order of first occurrence, with
 * its number of occurrences.
 */
module Frequency {

  /** Each key of `xs` with its number of occurrences. */
  function CountsOf(xs: seq<string>): map<string, nat>
  {
    map x | x in xs :: multiset(xs)[x]
  }

  /** `m.get(k) || 0`. */
  function Get(m: map<string, nat>, k: string): nat {
    if k in m then m[k] else 0
  }

  predicate Distinct(keys: seq<string>) {
    forall i, j :: 0 <= i < j < |keys| ==> keys[i] != keys[j]
  }

  /** The distinct keys of `xs` in order of first occurrence: a `Map`'s iteration order. */
  function FirstOrder(xs: seq<string>): seq<string>
  {
    if xs == [] then []
    else
      var init := xs[..|xs| - 1];
      if xs[|xs| - 1] in init then FirstOrder(init) else FirstOrder(init) + [xs[|xs| - 1]]
  }

  /** Every key of `xs` appears in `FirstOrder(xs)`, and only once. */
  lemma {:induction false} FirstOrderSpec(xs: seq<string>)
    ensures Distinct(FirstOrder(xs))
    ensures forall x :: x in FirstOrder(xs) <==> x in xs
  {
    if xs != [] {
      var init := xs[..|xs| - 1];
      FirstOrderSpec(init);
      assert xs == init + [xs[|xs| - 1]];
    }
  }

  /** The entries of `counts` listed in the order of `keys`. */
  function EntriesOf(keys: seq<string>, counts: map<string, nat>): seq<(string, nat)>
    requires forall k :: k in keys ==> k in counts
  {
    seq(|keys|, i requires 0 <= i < |keys| => (keys[i], counts[keys[i]]))
  }

  /** `Array.from(m.entries())` for the map filled from the occurrences `xs`. */
  function Tally(xs: seq<string>): seq<(string, nat)>
  {
    FirstOrderSpec(xs);
    EntriesOf(FirstOrder(xs), CountsOf(xs))
  }

  /** The sum of the counts of a list of entries. */
  function SumCounts(es: seq<(string, nat)>): nat
  {
    if es == [] then 0 else SumCounts(es[..|es| - 1]) + es[|es| - 1].1
  }

  /**
   * The tally lists every key of `xs` once, with its number of occurrences, and
   * nothing else; it has as many entries as the map has keys.
   */
  lemma TallySpec(xs: seq<string>)
    ensures forall e: (string, nat) :: e in Tally(xs) <==> e.0 in xs && e.1 == multiset(xs)[e.0]
    ensures forall i, j :: 0 <= i < j < |Tally(xs)| ==> Tally(xs)[i].0 != Tally(xs)[j].0
    ensures |Tally(xs)| == |CountsOf(xs)|
  {
    var keys := FirstOrder(xs);
    FirstOrderSpec(xs);
    var t := Tally(xs);
    forall e: (string, nat) | e.0 in xs && e.1 == multiset(xs)[e.0]
      ensures e in t
    {
      var i :| 0 <= i < |keys| && keys[i] == e.0;
      assert t[i] == e;
    }
    DistinctCard(keys);
    assert (set x | x in keys) == CountsOf(xs).Keys;
  }

  /** A list without repeats has as many elements as the set of its elements. */
  lemma {:induction false} DistinctCard(keys: seq<string>)
    requires Distinct(keys)
    ensures |set x | x in keys| == |keys|
  {
    if keys != [] {
      var init := keys[..|keys| - 1];
      DistinctCard(init);
      assert (set x | x in keys) == (set x | x in init) + {keys[|keys| - 1]};
      assert keys[|keys| - 1] !in init;
    }
  }

  /** One more occurrence of `x`: its count goes up by one, other counts stay. */
  lemma CountsOfSnoc(xs: seq<string>, x: string)
    ensures CountsOf(xs + [x]) == CountsOf(xs)[x := Get(CountsOf(xs), x) + 1]
  {
    assert multiset(xs + [x]) == multiset(xs) + multiset{x};
  }

  /** One more occurrence of `x`: a new key goes to the end of the iteration order. */
  lemma FirstOrderSnoc(xs: seq<string>, x: string)
    ensures FirstOrder(xs + [x]) == if x in xs then FirstOrder(xs) else FirstOrder(xs) + [x]
  {
    assert (xs + [x])[..|xs|] == xs;
  }

  lemma SumAppend(es: seq<(string, nat)>, e: (string, nat))
    ensures SumCounts(es + [e]) == SumCounts(es) + e.1
  {
    assert (es + [e])[..|es|] == es;
  }

  /** Raising one count by one raises the sum by one. */
  lemma {:induction false} SumBump(es: seq<(string, nat)>, p: nat, k: string)
    requires p < |es|
    ensures SumCounts(es[p := (k, es[p].1 + 1)]) == SumCounts(es) + 1
  {
    var bumped := es[p := (k, es[p].1 + 1)];
    var n := |es| - 1;
    if p < n {
      SumBump(es[..n], p, k);
      assert bumped[..n] == es[..n][p := (k, es[p].1 + 1)];
    } else {
      assert bumped[..n] == es[..n];
    }
  }

  /** The counts add up to the number of occurrences. */
  lemma {:induction false} TallySum(xs: seq<string>)
    ensures SumCounts(Tally(xs)) == |xs|
  {
    if xs != [] {
      var init, x := xs[..|xs| - 1], xs[|xs| - 1];
      assert xs == init + [x];
      TallySum(init);
      FirstOrderSpec(init);
      if x in init {
        var keys := FirstOrder(init);
        var p :| 0 <= p < |keys| && keys[p] == x;
        TallySnocOld(init, x, p);
        SumBump(Tally(init), p, x);
      } else {
        TallySnocNew(init, x);
        SumAppend(Tally(init), (x, 1));
      }
    }
  }

  /** Another occurrence of a key already counted raises its entry by one, in place. */
  lemma TallySnocOld(xs: seq<string>, x: string, p: nat)
    requires p < |FirstOrder(xs)| && FirstOrder(xs)[p] == x
    ensures p < |Tally(xs)| && Tally(xs + [x]) == Tally(xs)[p := (x, Tally(xs)[p].1 + 1)]
  {
    FirstOrderSpec(xs);
    FirstOrderSnoc(xs, x);
    CountsOfSnoc(xs, x);
    EntriesBump(FirstOrder(xs), CountsOf(xs), p);
  }

  /** Raising the count of the key at `p` changes only the entry at `p`. */
  lemma EntriesBump(keys: seq<string>, counts: map<string, nat>, p: nat)
    requires Distinct(keys) && p < |keys| && forall k :: k in keys ==> k in counts
    ensures var k := keys[p];
            EntriesOf(keys, counts[k := counts[k] + 1]) == EntriesOf(keys, counts)[p := (k, counts[k] + 1)]
  {
  }

  /** The first occurrence of a key adds the entry `(x, 1)` at the end. */
  lemma TallySnocNew(xs: seq<string>, x: string)
    requires x !in xs
    ensures Tally(xs + [x]) == Tally(xs) + [(x, 1)]
  {
    FirstOrderSpec(xs);
    FirstOrderSnoc(xs, x);
    CountsOfSnoc(xs, x);
  }

  /**
   * A JavaScript `Map<string, number>` used as a counter: its keys in insertion
   * order and its counts. `seen` is the history of the keys counted so far.
   */
  class CountMap {
    var keys: seq<string>
    var counts: map<string, nat>
    ghost var seen: seq<string>

    /** The map holds the tally of what it has counted. */
    ghost predicate Valid()
      reads this
    {
      keys == FirstOrder(seen) && counts == CountsOf(seen)
    }

    constructor ()
      ensures Valid() && seen == []
    {
      keys := [];
      counts := map[];
      seen := [];
    }

    /** `m.set(key, (m.get(key) || 0) + 1)`: a new key is inserted last. */
    method Increment(key: string)
      requires Valid()
      modifies this
      ensures Valid() && seen == old(seen) + [key]
      ensures counts == old(counts)[key := Get(old(counts), key) + 1]
      ensures keys == if key in old(counts) then old(keys) else old(keys) + [key]
    {
      FirstOrderSnoc(seen, key);
      CountsOfSnoc(seen, key);
      if key !in counts {
        keys := keys + [key];
      }
      counts := counts[key := Get(counts, key) + 1];
      seen := seen + [key];
    }

    /** `Array.from(m.entries())`: the tally of what has been counted. */
    method Entries() returns (a: array<(string, nat)>)
      requires Valid()
      ensures fresh(a) && a[..] == Tally(seen)
    {
      FirstOrderSpec(seen);
      var es := EntriesOf(keys, counts);
      a := new (string, nat)[|es|](i requires 0 <= i < |es| => es[i]);
    }
  }

  /** Counting one more element of `xs` extends the counted prefix by that element. */
  lemma CountNext(start: seq<string>, xs: seq<string>, j: nat, before: seq<string>)
    requires j < |xs| && before == start + xs[..j]
    ensures before + [xs[j]] == start + xs[..j + 1]
  {
    assert xs[..j + 1] == xs[..j] + [xs[j]];
  }

  /** Counting `x` after the prefix `counted` of a run that started from `start`. */
  lemma CountAfter(start: seq<string>, counted: seq<string>, x: string, before: seq<string>)
    requires before == start + counted
    ensures before + [x] == start + (counted + [x])
  {
  }

  /** Ordered by non-decreasing count. */
  predicate SortedByCount(es: seq<(string, nat)>) {
    forall p, q :: 0 <= p < q < |es| ==> es[p].1 <= es[q].1
  }

  /** The entries of `es` with count `c`, in their order. */
  function WithCount(es: seq<(string, nat)>, c: nat): seq<(string, nat)>
  {
    if es == [] then []
    else WithCount(es[..|es| - 1], c) + (if es[|es| - 1].1 == c then [es[|es| - 1]] else [])
  }

  /** Entries with equal counts come in the same order in both lists, and no entry is lost or added. */
  ghost predicate Stable(s: seq<(string, nat)>, t: seq<(string, nat)>) {
    forall c :: WithCount(s, c) == WithCount(t, c)
  }

  /**
   * `entries.sort((a, b) => a[1] - b[1])`: the entries are reordered in place
   * into non-decreasing count; `Array.prototype.sort` is stable, so entries
   * with equal counts keep their insertion order.
   */
  method SortByCount(a: array<(string, nat)>)
    modifies a
    ensures SortedByCount(a[..])
    ensures multiset(a[..]) == multiset(old(a[..]))
    ensures Stable(a[..], old(a[..]))
  {
    var i := 0;
    while i < a.Length
      invariant i <= a.Length
      invariant forall p, q :: 0 <= p < q < i ==> a[p].1 <= a[q].1
      invariant multiset(a[..]) == multiset(old(a[..]))
      invariant Stable(a[..], old(a[..]))
    {
      InsertInto(a, i);
      i := i + 1;
    }
  }

  /** Moves `a[i]` down into the sorted prefix `a[..i]`, past larger counts only, leaving `a[..i + 1]` sorted. */
  method InsertInto(a: array<(string, nat)>, i: nat)
    requires i < a.Length
    requires forall p, q :: 0 <= p < q < i ==> a[p].1 <= a[q].1
    modifies a
    ensures forall p, q :: 0 <= p < q <= i ==> a[p].1 <= a[q].1
    ensures multiset(a[..]) == multiset(old(a[..]))
    ensures Stable(a[..], old(a[..]))
  {
    var j := i;
    while j > 0 && a[j - 1].1 > a[j].1
      invariant 0 <= j <= i
      invariant Moving(a[..], i, j)
      invariant multiset(a[..]) == multiset(old(a[..]))
      invariant Stable(a[..], old(a[..]))
    {
      ghost var before := a[..];
      a[j - 1], a[j] := a[j], a[j - 1];
      assert a[..] == before[j - 1 := before[j]][j := before[j - 1]];
      SwapKeepsMultiset(before, j - 1, j);
      SwapKeepsStable(before, j);
      MovingStep(before, i, j);
      j := j - 1;
    }
    MovingDone(a[..], i, j);
  }

  /**
   * The order a stable sort by count produces is determined: two lists sorted
   * by count that hold the entries of each count in the same order are equal.
   */
  lemma {:induction false} SortedStableUnique(s: seq<(string, nat)>, t: seq<(string, nat)>)
    requires SortedByCount(s) && SortedByCount(t) && Stable(s, t)
    ensures s == t
    decreases |s| + |t|
  {
    if s == [] || t == [] {
      if s != [] {
        WithCountLast(s);
      } else if t != [] {
        WithCountLast(t);
      }
    } else {
      var m, n := |s| - 1, |t| - 1;
      LastCountsAgree(s, t);
      var c := s[m].1;
      forall d
        ensures WithCount(s[..m], d) == WithCount(t[..n], d)
      {
        var ws, wt := WithCount(s[..m], d), WithCount(t[..n], d);
        assert WithCount(s, d) == WithCount(t, d);
        if d == c {
          assert WithCount(s, d) == ws + [s[m]] && WithCount(t, d) == wt + [t[n]];
          assert ws == (ws + [s[m]])[..|ws|];
          assert wt == (wt + [t[n]])[..|wt|];
        } else {
          assert WithCount(s, d) == ws + [] && WithCount(t, d) == wt + [];
          assert ws + [] == ws && wt + [] == wt;
        }
      }
      assert WithCount(s, c) == WithCount(s[..m], c) + [s[m]];
      assert WithCount(t, c) == WithCount(t[..n], c) + [t[n]];
      assert s[m] == WithCount(s, c)[|WithCount(s, c)| - 1];
      assert t[n] == WithCount(t, c)[|WithCount(t, c)| - 1];
      SortedStableUnique(s[..m], t[..n]);
      assert s == s[..m] + [s[m]] && t == t[..n] + [t[n]];
    }
  }

  /** A non-empty list has entries with the count of its last entry. */
  lemma WithCountLast(es: seq<(string, nat)>)
    requires es != []
    ensures WithCount(es, es[|es| - 1].1) != []
  {
  }

  lemma {:induction false} WithCountMember(es: seq<(string, nat)>, c: nat, e: (string, nat))
    requires e in WithCount(es, c)
    ensures e.1 == c && exists k :: 0 <= k < |es| && es[k] == e
    decreases |es|
  {
    var n := |es| - 1;
    if e in WithCount(es[..n], c) {
      WithCountMember(es[..n], c, e);
      var k :| 0 <= k < n && es[..n][k] == e;
      assert es[k] == e;
    } else {
      assert es[n] == e;
    }
  }

  /** Two sorted lists with the same entries of every count end on the same count. */
  lemma LastCountsAgree(s: seq<(string, nat)>, t: seq<(string, nat)>)
    requires SortedByCount(s) && SortedByCount(t) && Stable(s, t) && s != [] && t != []
    ensures s[|s| - 1].1 == t[|t| - 1].1
  {
    var m, n := |s| - 1, |t| - 1;
    if s[m].1 < t[n].1 {
      WithCountLast(t);
      var e := WithCount(t, t[n].1)[0];
      assert e in WithCount(s, t[n].1);
      WithCountMember(s, t[n].1, e);
    } else if t[n].1 < s[m].1 {
      WithCountLast(s);
      var e := WithCount(s, s[m].1)[0];
      assert e in WithCount(t, s[m].1);
      WithCountMember(t, s[m].1, e);
    }
  }

  lemma {:induction false} WithCountAppend(s: seq<(string, nat)>, t: seq<(string, nat)>, c: nat)
    ensures WithCount(s + t, c) == WithCount(s, c) + WithCount(t, c)
    decreases |t|
  {
    if t == [] {
      assert s + t == s;
    } else {
      var n := |t| - 1;
      assert (s + t)[..|s + t| - 1] == s + t[..n];
      WithCountAppend(s, t[..n], c);
    }
  }

  lemma WithCountPair(x: (string, nat), y: (string, nat), c: nat)
    ensures WithCount([x, y], c) == (if x.1 == c then [x] else []) + (if y.1 == c then [y] else [])
  {
    assert [x, y][..1] == [x];
    assert [x][..0] == [];
    assert WithCount([x], c) == (if x.1 == c then [x] else []);
  }

  /** Swapping neighbours with different counts changes no list `WithCount` gives. */
  lemma SwapKeepsStable(s: seq<(string, nat)>, j: nat)
    requires 0 < j < |s| && s[j - 1].1 != s[j].1
    ensures Stable(s[j - 1 := s[j]][j := s[j - 1]], s)
  {
    var t := s[j - 1 := s[j]][j := s[j - 1]];
    var x, y, front, back := s[j - 1], s[j], s[..j - 1], s[j + 1..];
    assert s == front + [x, y] + back;
    assert t == front + [y, x] + back;
    forall c
      ensures WithCount(t, c) == WithCount(s, c)
    {
      WithCountAppend(front + [x, y], back, c);
      WithCountAppend(front, [x, y], c);
      WithCountAppend(front + [y, x], back, c);
      WithCountAppend(front, [y, x], c);
      WithCountPair(x, y, c);
      WithCountPair(y, x, c);
    }
  }

  /**
   * The entry at `j` is on its way down: `s[..i + 1]` without it is sorted, and
   * it is no larger than anything after it.
   */
  predicate Moving(s: seq<(string, nat)>, i: nat, j: nat) {
    && j <= i < |s|
    && (forall p, q :: 0 <= p < q <= i && p != j && q != j ==> s[p].1 <= s[q].1)
    && (forall q :: j < q <= i ==> s[j].1 <= s[q].1)
  }

  lemma MovingStep(s: seq<(string, nat)>, i: nat, j: nat)
    requires Moving(s, i, j) && 0 < j && s[j - 1].1 > s[j].1
    ensures Moving(s[j - 1 := s[j]][j := s[j - 1]], i, j - 1)
  {
  }

  lemma MovingDone(s: seq<(string, nat)>, i: nat, j: nat)
    requires Moving(s, i, j) && (j == 0 || s[j - 1].1 <= s[j].1)
    ensures forall p, q :: 0 <= p < q <= i ==> s[p].1 <= s[q].1
  {
  }

  lemma SwapKeepsMultiset<T>(s: seq<T>, i: nat, j: nat)
    requires i < |s| && j < |s|
    ensures multiset(s[i := s[j]][j := s[i]]) == multiset(s)
  {
  }

  /** What a statistics script prints: the sorted entries and the summary counts. */
  datatype Report = Report(sorted: seq<(string, nat)>, unique: nat, processed: nat, without: nat)
}
