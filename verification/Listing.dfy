/** Directory listings: the names of a directory in some order, and in sorted order. */
module Listing {
  import opened Strings

  predicate Before(a: string, b: string) {
    a == b || Less(a, b)
  }

  ghost predicate IsLeast(n: string, s: set<string>) {
    n in s && forall m | m in s :: Before(n, m)
  }

  lemma {:induction false} LeastExists(s: set<string>)
    requires s != {}
    ensures exists n :: IsLeast(n, s)
  {
    var x :| x in s;
    if s == {x} {
      assert IsLeast(x, s);
    } else {
      LeastExists(s - {x});
      var n :| IsLeast(n, s - {x});
      LessTrichotomy(n, x);
      if Less(n, x) {
        assert IsLeast(n, s);
      } else {
        assert Less(x, n);
        forall m | m in s ensures Before(x, m) {
          if m != x && m != n {
            assert Before(n, m);
            LessTransitive(x, n, m);
          }
        }
        assert IsLeast(x, s);
      }
    }
  }

  lemma LeastUnique(n: string, m: string, s: set<string>)
    requires IsLeast(n, s) && IsLeast(m, s)
    ensures n == m
  {
    LessTrichotomy(n, m);
  }

  ghost function Least(s: set<string>): (n: string)
    requires s != {}
    ensures IsLeast(n, s)
  {
    LeastExists(s);
    var n :| IsLeast(n, s);
    n
  }

  predicate Ascending(names: seq<string>) {
    forall i, j | 0 <= i < j < |names| :: Less(names[i], names[j])
  }

  /** os.ReadDir followed by sort.Slice on the names. */
  method SortedNames(s: set<string>) returns (names: seq<string>)
    ensures Ascending(names)
    ensures forall n :: n in names <==> n in s
  {
    names := [];
    var rest := s;
    while rest != {}
      invariant rest <= s && forall n :: n in names <==> n in s && n !in rest
      invariant Ascending(names)
      invariant forall i, n | 0 <= i < |names| && n in rest :: Less(names[i], n)
      decreases rest
    {
      LeastExists(rest);
      var least :| least in rest && forall m | m in rest :: Before(least, m);
      forall n | n in rest && n != least ensures Less(least, n) {
        assert Before(least, n);
      }
      names := names + [least];
      rest := rest - {least};
    }
  }

  predicate Distinct(names: seq<string>) {
    forall i, j | 0 <= i < j < |names| :: names[i] != names[j]
  }

  lemma AscendingDistinct(names: seq<string>)
    requires Ascending(names)
    ensures Distinct(names)
  {
    forall i, j | 0 <= i < j < |names| ensures names[i] != names[j] {
      LessTrichotomy(names[i], names[j]);
    }
  }

  /** os.ReadDir: every entry once. */
  method ReadDir(s: set<string>) returns (names: seq<string>)
    ensures Distinct(names)
    ensures forall n :: n in names <==> n in s
  {
    names := [];
    var rest := s;
    while rest != {}
      invariant rest <= s && forall n :: n in names <==> n in s && n !in rest
      invariant Distinct(names)
      decreases rest
    {
      var n :| n in rest;
      names := names + [n];
      rest := rest - {n};
    }
  }

  lemma {:induction false} CountDistinct(names: seq<string>, s: set<string>)
    requires Distinct(names) && forall n :: n in names <==> n in s
    ensures |s| == |names|
  {
    if names == [] {
      assert s == {};
    } else {
      var last, front := names[|names| - 1], names[..|names| - 1];
      assert names == front + [last];
      assert last !in front;
      CountDistinct(front, s - {last});
    }
  }
}
