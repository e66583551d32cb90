/**
 * A total order on paths, comparing character codes from the left, and the
 * paths of a set listed in that order. It stands in for the order in which
 * `find` visits a directory tree.
 */
module PathOrder {

  /** `a` equals `b` or comes before it. */
  predicate Precedes(a: string, b: string)
    decreases |a|
  {
    a == [] || (b != [] && (a[0] < b[0] || (a[0] == b[0] && Precedes(a[1..], b[1..]))))
  }

  lemma {:induction false} PrecedesReflexive(a: string)
    ensures Precedes(a, a)
    decreases |a|
  {
    if a != [] {
      PrecedesReflexive(a[1..]);
    }
  }

  lemma {:induction false} PrecedesTotal(a: string, b: string)
    ensures Precedes(a, b) || Precedes(b, a)
    decreases |a|
  {
    if a != [] && b != [] && a[0] == b[0] {
      PrecedesTotal(a[1..], b[1..]);
    }
  }

  lemma {:induction false} PrecedesAntisymmetric(a: string, b: string)
    requires Precedes(a, b) && Precedes(b, a)
    ensures a == b
    decreases |a|
  {
    if a != [] {
      PrecedesAntisymmetric(a[1..], b[1..]);
      assert a == [a[0]] + a[1..] && b == [b[0]] + b[1..];
    }
  }

  lemma {:induction false} PrecedesTransitive(a: string, b: string, c: string)
    requires Precedes(a, b) && Precedes(b, c)
    ensures Precedes(a, c)
    decreases |a|
  {
    if a != [] && a[0] == b[0] && b[0] == c[0] {
      PrecedesTransitive(a[1..], b[1..], c[1..]);
    }
  }

  /** `m` is in `s` and comes before every other member. */
  predicate Least(s: set<string>, m: string) {
    m in s && forall x :: x in s ==> Precedes(m, x)
  }

  /** Every non-empty set of paths has a least member. */
  lemma {:induction false} LeastExists(s: set<string>)
    requires s != {}
    ensures exists m :: Least(s, m)
    decreases |s|
  {
    var y :| y in s;
    if s == {y} {
      PrecedesReflexive(y);
      assert Least(s, y);
    } else {
      LeastExists(s - {y});
      var m :| Least(s - {y}, m);
      PrecedesTotal(m, y);
      if Precedes(m, y) {
        assert Least(s, m);
      } else {
        forall x | x in s
          ensures Precedes(y, x)
        {
          if x == y {
            PrecedesReflexive(y);
          } else {
            PrecedesTransitive(y, m, x);
          }
        }
        assert Least(s, y);
      }
    }
  }

  lemma LeastUnique(s: set<string>)
    ensures forall a, b :: Least(s, a) && Least(s, b) ==> a == b
  {
    forall a, b | Least(s, a) && Least(s, b)
      ensures a == b
    {
      PrecedesAntisymmetric(a, b);
    }
  }

  /** The members of `s`, each once, in ascending order. */
  function Ascending(s: set<string>): (r: seq<string>)
    ensures InOrder(r, s)
    decreases |s|
  {
    if s == {} then []
    else
      LeastExists(s);
      LeastUnique(s);
      var m :| Least(s, m);
      var rest := Ascending(s - {m});
      LeastFirst(s, m, rest);
      [m] + rest
  }

  /** `r` lists the members of `s`, each once, in ascending order. */
  ghost predicate InOrder(r: seq<string>, s: set<string>) {
    && (forall x :: x in r <==> x in s)
    && |r| == |s|
    && (forall i, j :: 0 <= i < j < |r| ==> Precedes(r[i], r[j]) && r[i] != r[j])
  }

  lemma LeastFirst(s: set<string>, m: string, rest: seq<string>)
    requires Least(s, m) && InOrder(rest, s - {m})
    ensures InOrder([m] + rest, s)
  {
    var r := [m] + rest;
    forall i, j | 0 <= i < j < |r|
      ensures Precedes(r[i], r[j]) && r[i] != r[j]
    {
      if i == 0 {
        assert r[j] == rest[j - 1] && rest[j - 1] in s - {m};
      } else {
        assert r[i] == rest[i - 1] && r[j] == rest[j - 1];
      }
    }
  }
}
