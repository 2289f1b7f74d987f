/** Python's ordering of `str` values (code point by code point, a proper prefix first)
    and `sorted` applied to a set of distinct strings. */
module Order {
  import opened Seqs

  /** `a < b` on Python strings. */
  predicate Below(a: string, b: string)
    decreases |a|
  {
    |b| > 0 && (|a| == 0 || a[0] < b[0] || (a[0] == b[0] && Below(a[1..], b[1..])))
  }

  lemma {:induction false} BelowIrreflexive(a: string)
    ensures !Below(a, a)
    decreases |a|
  {
    if |a| > 0 {
      BelowIrreflexive(a[1..]);
    }
  }

  lemma {:induction false} BelowTransitive(a: string, b: string, c: string)
    requires Below(a, b) && Below(b, c)
    ensures Below(a, c)
    decreases |a|
  {
    if |a| > 0 && a[0] == b[0] && b[0] == c[0] {
      BelowTransitive(a[1..], b[1..], c[1..]);
    }
  }

  /** Any two different strings are ordered one way or the other. */
  lemma {:induction false} BelowTotal(a: string, b: string)
    requires a != b
    ensures Below(a, b) || Below(b, a)
    decreases |a|
  {
    if |a| > 0 && |b| > 0 && a[0] == b[0] {
      assert a == [a[0]] + a[1..] && b == [b[0]] + b[1..];
      BelowTotal(a[1..], b[1..]);
    }
  }

  /** Each element is below the next one: sorted ascending, without duplicates. */
  predicate StrictlyAscending(s: seq<string>)
  {
    forall i :: 0 < i < |s| ==> Below(s[i - 1], s[i])
  }

  /** `m` is the smallest string of `names`. */
  predicate IsLeast(m: string, names: set<string>)
  {
    m in names && forall x :: x in names && x != m ==> Below(m, x)
  }

  lemma {:induction false} LeastExists(names: set<string>)
    requires names != {}
    ensures exists m :: IsLeast(m, names)
    decreases |names|
  {
    var x :| x in names;
    if names == {x} {
      assert IsLeast(x, names);
    } else {
      var rest := names - {x};
      LeastExists(rest);
      var y :| IsLeast(y, rest);
      if Below(x, y) {
        forall z | z in names && z != x
          ensures Below(x, z)
        {
          if z != y {
            BelowTransitive(x, y, z);
          }
        }
        assert IsLeast(x, names);
      } else {
        BelowTotal(x, y);
        assert IsLeast(y, names);
      }
    }
  }

  lemma LeastUnique(m: string, n: string, names: set<string>)
    requires IsLeast(m, names) && IsLeast(n, names)
    ensures m == n
  {
    if m != n {
      assert Below(m, n) && Below(n, m);
      BelowTransitive(m, n, m);
      BelowIrreflexive(m);
    }
  }

  lemma LeastIsUnique(names: set<string>)
    ensures forall m, n :: IsLeast(m, names) && IsLeast(n, names) ==> m == n
  {
    forall m, n | IsLeast(m, names) && IsLeast(n, names)
      ensures m == n
    {
      LeastUnique(m, n, names);
    }
  }

  /** Python's `sorted(names)` for a set of strings: every name exactly once, ascending. */
  function SortedNames(names: set<string>): (r: seq<string>)
    ensures Elements(r) == names
    ensures |r| == |names|
    ensures StrictlyAscending(r)
    decreases |names|
  {
    if names == {} then []
    else
      LeastExists(names);
      LeastIsUnique(names);
      var m :| IsLeast(m, names);
      var rest := SortedNames(names - {m});
      assert rest != [] ==> rest[0] in Elements(rest);
      assert Elements([m] + rest) == {m} + Elements(rest);
      [m] + rest
  }

  /** A sorted, duplicate-free listing of a set is unique: it is the one `SortedNames` gives. */
  lemma {:induction false} SortedListingUnique(s: seq<string>, names: set<string>)
    requires StrictlyAscending(s) && Elements(s) == names
    ensures s == SortedNames(names)
    decreases |names|
  {
    var r := SortedNames(names);
    if s != [] {
      assert s[0] in names;
      AscendingHeadIsLeast(s);
      var m := s[0];
      assert r[0] in Elements(r);
      assert IsLeast(r[0], names) by {
        AscendingHeadIsLeast(r);
      }
      LeastUnique(m, r[0], names);
      assert Elements(s[1..]) == names - {m} by {
        AscendingNoRepeat(s);
        assert s == [s[0]] + s[1..];
      }
      assert Elements(r[1..]) == names - {m} by {
        AscendingNoRepeat(r);
        assert r == [r[0]] + r[1..];
      }
      SortedListingUnique(s[1..], names - {m});
      SortedListingUnique(r[1..], names - {m});
      assert s == [m] + s[1..] && r == [m] + r[1..];
    } else {
      assert names == {};
    }
  }

  lemma {:induction false} AscendingHeadIsLeast(s: seq<string>)
    requires StrictlyAscending(s) && s != []
    ensures IsLeast(s[0], Elements(s))
    decreases |s|
  {
    if |s| > 1 {
      AscendingHeadIsLeast(s[1..]);
      assert Elements(s) == {s[0]} + Elements(s[1..]) by {
        assert s == [s[0]] + s[1..];
      }
      forall x | x in Elements(s) && x != s[0]
        ensures Below(s[0], x)
      {
        if x != s[1] {
          BelowTransitive(s[0], s[1], x);
        }
      }
    }
  }

  lemma AscendingNoRepeat(s: seq<string>)
    requires StrictlyAscending(s) && s != []
    ensures s[0] !in s[1..]
  {
    AscendingHeadIsLeast(s);
    if s[0] in s[1..] {
      var j :| 0 <= j < |s[1..]| && s[1..][j] == s[0];
      assert s[j + 1] == s[0];
      AscendingIncreasing(s, 0, j + 1);
      BelowIrreflexive(s[0]);
    }
  }

  lemma {:induction false} AscendingIncreasing(s: seq<string>, i: nat, j: nat)
    requires StrictlyAscending(s) && i < j < |s|
    ensures Below(s[i], s[j])
    decreases j - i
  {
    if j > i + 1 {
      AscendingIncreasing(s, i, j - 1);
      BelowTransitive(s[i], s[j - 1], s[j]);
    }
  }
}
