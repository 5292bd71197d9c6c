/** The order in which `fs.readdir` lists a directory: libuv sorts the entries
    with `strcmp`, which on UTF-8 names is lexicographic order of code points. */
module DirOrder {

  /** `strcmp(a, b) <= 0` */
  predicate StrLeq(a: string, b: string)
    decreases |a|
  {
    a == [] || (b != [] && (a[0] < b[0] || (a[0] == b[0] && StrLeq(a[1..], b[1..]))))
  }

  lemma {:induction false} StrLeqTotal(a: string, b: string)
    ensures StrLeq(a, b) || StrLeq(b, a)
    decreases |a|
  {
    if a != [] && b != [] && a[0] == b[0] {
      StrLeqTotal(a[1..], b[1..]);
    }
  }

  lemma {:induction false} StrLeqAntisymmetric(a: string, b: string)
    requires StrLeq(a, b) && StrLeq(b, a)
    ensures a == b
    decreases |a|
  {
    if a != [] {
      StrLeqAntisymmetric(a[1..], b[1..]);
      assert a == [a[0]] + a[1..] && b == [b[0]] + b[1..];
    }
  }

  lemma {:induction false} StrLeqTransitive(a: string, b: string, c: string)
    requires StrLeq(a, b) && StrLeq(b, c)
    ensures StrLeq(a, c)
    decreases |a|
  {
    if a != [] && a[0] == b[0] && b[0] == c[0] {
      StrLeqTransitive(a[1..], b[1..], c[1..]);
    }
  }

  predicate IsLeast(m: string, names: set<string>)
  {
    m in names && forall x :: x in names ==> StrLeq(m, x)
  }

  lemma {:induction false} LeastExists(names: set<string>)
    requires names != {}
    ensures exists m :: IsLeast(m, names)
    decreases |names|
  {
    var x :| x in names;
    var rest := names - {x};
    if rest == {} {
      assert names == {x};
      StrLeqTotal(x, x);
      assert IsLeast(x, names);
    } else {
      LeastExists(rest);
      var m :| IsLeast(m, rest);
      StrLeqTotal(x, m);
      if StrLeq(x, m) {
        forall y | y in names
          ensures StrLeq(x, y)
        {
          if y == x {
            StrLeqTotal(x, x);
          } else {
            StrLeqTransitive(x, m, y);
          }
        }
        assert IsLeast(x, names);
      } else {
        assert IsLeast(m, names);
      }
    }
  }

  lemma LeastIsUnique(names: set<string>)
    ensures forall m, n :: IsLeast(m, names) && IsLeast(n, names) ==> m == n
  {
    forall m, n | IsLeast(m, names) && IsLeast(n, names)
      ensures m == n
    {
      StrLeqAntisymmetric(m, n);
    }
  }

  /** The entry `readdir` lists first. */
  function Least(names: set<string>): (m: string)
    requires names != {}
    ensures IsLeast(m, names)
  {
    LeastExists(names);
    LeastIsUnique(names);
    var m :| IsLeast(m, names);
    m
  }

  predicate StrictlySorted(l: seq<string>)
  {
    forall i, j :: 0 <= i < j < |l| ==> StrLeq(l[i], l[j]) && l[i] != l[j]
  }

  /** `fs.readdir`: the names, least first. */
  function SortedNames(names: set<string>): seq<string>
    decreases |names|
  {
    if names == {} then []
    else
      var m := Least(names);
      [m] + SortedNames(names - {m})
  }

  /** The listing holds every name exactly once, in `strcmp` order. */
  lemma {:induction false} SortedNamesSpec(names: set<string>)
    ensures |SortedNames(names)| == |names|
    ensures forall x :: x in SortedNames(names) <==> x in names
    ensures StrictlySorted(SortedNames(names))
    decreases |names|
  {
    if names != {} {
      var m := Least(names);
      SortedNamesSpec(names - {m});
      var rest := SortedNames(names - {m});
      var l := [m] + rest;
      assert SortedNames(names) == l;
      forall x ensures x in l <==> x in names {
        if x in l && x != m { assert x in rest; }
      }
      forall i, j | 0 <= i < j < |l|
        ensures StrLeq(l[i], l[j]) && l[i] != l[j]
      {
        assert l[j] == rest[j - 1] && l[j] in names - {m};
        if i > 0 {
          assert l[i] == rest[i - 1];
        }
      }
    }
  }
}
