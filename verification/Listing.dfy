/** Directory listings: a set of names in the code-point order in which
    `sorted(directory.iterdir(), key=lambda path: path.name)` visits them. */
module Listing {

  /** Strict lexicographic order by code point, the order of `str` comparison. */
  predicate Before(a: string, b: string) {
    if b == "" then false
    else if a == "" then true
    else a[0] < b[0] || (a[0] == b[0] && Before(a[1..], b[1..]))
  }

  lemma {:induction false} BeforeIsIrreflexive(a: string)
    ensures !Before(a, a)
  {
    if a != "" {
      BeforeIsIrreflexive(a[1..]);
    }
  }

  lemma {:induction false} BeforeIsTransitive(a: string, b: string, c: string)
    requires Before(a, b) && Before(b, c)
    ensures Before(a, c)
  {
    if a != "" && a[0] == b[0] == c[0] {
      BeforeIsTransitive(a[1..], b[1..], c[1..]);
    }
  }

  lemma {:induction false} BeforeIsTotal(a: string, b: string)
    ensures a == b || Before(a, b) || Before(b, a)
  {
    if a != "" && b != "" && a[0] == b[0] {
      BeforeIsTotal(a[1..], b[1..]);
      if a[1..] == b[1..] {
        assert a == [a[0]] + a[1..] && b == [b[0]] + b[1..];
      }
    }
  }

  /** The first name of a directory. */
  ghost predicate IsFirst(m: string, names: set<string>) {
    m in names && forall x | x in names && x != m :: Before(m, x)
  }

  lemma {:induction false} FirstExists(names: set<string>)
    requires names != {}
    ensures exists m :: IsFirst(m, names)
    decreases names
  {
    var m :| m in names;
    if exists x :: x in names && x != m {
      var other :| other in names && other != m;
      assert other in names - {m};
      FirstExists(names - {m});
      var r :| IsFirst(r, names - {m});
      BeforeIsTotal(m, r);
      if Before(m, r) {
        forall x | x in names && x != m ensures Before(m, x) {
          if x != r { BeforeIsTransitive(m, r, x); }
        }
        assert IsFirst(m, names);
      } else {
        assert IsFirst(r, names);
      }
    } else {
      assert IsFirst(m, names);
    }
  }

  lemma FirstIsUnique(m: string, n: string, names: set<string>)
    requires IsFirst(m, names) && IsFirst(n, names)
    ensures m == n
  {
    if m != n {
      BeforeIsTransitive(m, n, m);
      BeforeIsIrreflexive(m);
    }
  }

  ghost function First(names: set<string>): (m: string)
    requires names != {}
    ensures IsFirst(m, names)
  {
    FirstExists(names);
    var m :| IsFirst(m, names);
    m
  }

  /** The names of a directory, first to last. */
  ghost function Sorted(names: set<string>): (q: seq<string>)
    ensures forall x :: x in q <==> x in names
    decreases names
  {
    if names == {} then [] else
      var m := First(names);
      [m] + Sorted(names - {m})
  }

  /** A listing visits earlier names first and no name twice. */
  lemma {:induction false} SortedIsOrdered(names: set<string>, i: nat, j: nat)
    requires i < j < |Sorted(names)|
    ensures Before(Sorted(names)[i], Sorted(names)[j])
    decreases names
  {
    var m := First(names);
    var rest := Sorted(names - {m});
    if i == 0 {
      assert rest[j - 1] in names - {m};
    } else {
      SortedIsOrdered(names - {m}, i - 1, j - 1);
    }
  }

  lemma SortedSingleton(x: string)
    ensures Sorted({x}) == [x]
  {
    assert {x} - {x} == {};
  }

  /** The listing loop: repeatedly take the first remaining name. */
  method List(names: set<string>) returns (q: seq<string>)
    ensures q == Sorted(names)
  {
    var left := names;
    q := [];
    while left != {}
      invariant left <= names
      invariant q + Sorted(left) == Sorted(names)
      decreases left
    {
      assert exists m :: m in left && forall x | x in left :: x == m || Before(m, x) by {
        assert IsFirst(First(left), left);
      }
      var m :| m in left && forall x | x in left :: x == m || Before(m, x);
      FirstIsUnique(m, First(left), left);
      assert q + Sorted(left) == (q + [m]) + Sorted(left - {m});
      q := q + [m];
      left := left - {m};
    }
    assert q + Sorted({}) == q;
  }
}
