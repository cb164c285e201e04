/**
 * The order in which the tracker visits its day records. Every scan starts
 * from `Object.keys(state.days).sort()` (app.js:63, 78, 546, 657, 873), which
 * orders the keys as strings; `Desc` is that order reversed, newest first.
 */
module KeyOrder {
  import opened Strings

  /** `k` is the last key of `s` in string order. */
  predicate IsGreatest(k: string, s: set<string>) {
    k in s && forall x :: x in s ==> x == k || Lt(x, k)
  }

  lemma {:induction false} GreatestExists(s: set<string>)
    requires s != {}
    ensures exists k :: IsGreatest(k, s)
    decreases |s|
  {
    var x :| x in s;
    if s != {x} {
      var rest := s - {x};
      GreatestExists(rest);
      var k :| IsGreatest(k, rest);
      if Lt(k, x) {
        forall y | y in s
          ensures y == x || Lt(y, x)
        {
          if y != x {
            assert y in rest;
            if y != k {
              LtTransitive(y, k, x);
            }
          }
        }
        assert IsGreatest(x, s);
      } else {
        LtTotal(k, x);
        assert IsGreatest(k, s);
      }
    } else {
      assert IsGreatest(x, s);
    }
  }

  lemma GreatestUnique(a: string, b: string, s: set<string>)
    requires IsGreatest(a, s) && IsGreatest(b, s)
    ensures a == b
  {
    if a != b {
      LtAsymmetric(a, b);
    }
  }

  /** The keys of `s`, newest (greatest) first; `DescSorted` proves the order. */
  ghost function Desc(s: set<string>): (r: seq<string>)
    ensures |r| == |s|
    ensures forall k :: k in r <==> k in s
    decreases |s|
  {
    if s == {} then []
    else
      GreatestExists(s);
      var k :| IsGreatest(k, s);
      [k] + Desc(s - {k})
  }

  /** Whichever way the greatest key is found, the scan continues with the rest. */
  lemma DescStep(k: string, s: set<string>)
    requires IsGreatest(k, s)
    ensures Desc(s) == [k] + Desc(s - {k})
  {
    var r := Desc(s);
    assert IsGreatest(r[0], s) && r == [r[0]] + Desc(s - {r[0]});
    GreatestUnique(k, r[0], s);
  }

  /** Taking the greatest key left moves it from the unvisited keys to the end of the visited ones. */
  lemma VisitNewest(all: set<string>, seen: seq<string>, rest: set<string>, k: string)
    requires Desc(all) == seen + Desc(rest) && IsGreatest(k, rest)
    ensures Desc(all) == (seen + [k]) + Desc(rest - {k})
  {
    DescStep(k, rest);
    assert (seen + [k]) + Desc(rest - {k}) == seen + ([k] + Desc(rest - {k}));
  }

  /** The newest-first listing is strictly decreasing in string order. */
  lemma {:induction false} DescSorted(s: set<string>)
    ensures forall i, j :: 0 <= i < j < |Desc(s)| ==> Lt(Desc(s)[j], Desc(s)[i])
    decreases |s|
  {
    if s != {} {
      GreatestExists(s);
      var k :| IsGreatest(k, s);
      DescStep(k, s);
      var rest := Desc(s - {k});
      DescSorted(s - {k});
      PrependGreatest(k, rest, s);
    }
  }

  /** The greatest key in front of a decreasing listing of the others keeps it decreasing. */
  lemma PrependGreatest(k: string, rest: seq<string>, s: set<string>)
    requires IsGreatest(k, s)
    requires forall x :: x in rest ==> x in s - {k}
    requires forall i, j :: 0 <= i < j < |rest| ==> Lt(rest[j], rest[i])
    ensures forall i, j :: 0 <= i < j < |[k] + rest| ==> Lt(([k] + rest)[j], ([k] + rest)[i])
  {
    var d := [k] + rest;
    forall i, j | 0 <= i < j < |d|
      ensures Lt(d[j], d[i])
    {
      assert d[j] == rest[j - 1];
      if i == 0 {
        assert rest[j - 1] in rest;
      } else {
        assert d[i] == rest[i - 1];
      }
    }
  }

  /** The newest-first order is a strictly decreasing listing, so a key appears once. */
  lemma DescDistinct(s: set<string>, i: int, j: int)
    requires 0 <= i < j < |Desc(s)|
    ensures Desc(s)[i] != Desc(s)[j]
  {
    DescSorted(s);
    LtIrreflexive(Desc(s)[i]);
  }

  /** `Array.prototype.reverse`, on a copy. */
  function Reverse<T>(s: seq<T>): (r: seq<T>)
    ensures |r| == |s|
  {
    if s == [] then [] else Reverse(s[1..]) + [s[0]]
  }

  /** Position `i` of the reverse holds position `|s| - 1 - i` of the original. */
  lemma {:induction false} ReverseIndex<T>(s: seq<T>)
    ensures forall i :: 0 <= i < |s| ==> Reverse(s)[i] == s[|s| - 1 - i]
  {
    if s != [] {
      ReverseIndex(s[1..]);
    }
  }

  /** Reversing twice gives the sequence back. */
  lemma ReverseReverse<T>(s: seq<T>)
    ensures Reverse(Reverse(s)) == s
  {
    ReverseIndex(s);
    ReverseIndex(Reverse(s));
  }

  /** Appending to a sequence puts the new last element first in its reverse. */
  lemma ReverseSnoc<T>(s: seq<T>, x: T)
    ensures Reverse(s + [x]) == [x] + Reverse(s)
  {
    ReverseIndex(s);
    ReverseIndex(s + [x]);
    var r := Reverse(s + [x]);
    assert forall i :: 1 <= i < |r| ==> r[i] == s[|s| - i];
  }

  /** `Object.keys(days).sort()`: oldest first. */
  ghost function Asc(s: set<string>): (r: seq<string>)
    ensures |r| == |s|
    ensures forall k :: k in r <==> k in s
  {
    var d := Desc(s);
    var r := Reverse(d);
    ReverseIndex(d);
    assert forall k :: k in r <==> k in d by {
      forall k | k in r ensures k in d {
        var i :| 0 <= i < |r| && r[i] == k;
        assert d[|d| - 1 - i] == k;
      }
      forall k | k in d ensures k in r {
        var i :| 0 <= i < |d| && d[i] == k;
        assert r[|d| - 1 - i] == k;
      }
    }
    r
  }

  /** The oldest-first listing is strictly increasing in string order. */
  lemma AscSorted(s: set<string>)
    ensures forall i, j :: 0 <= i < j < |Asc(s)| ==> Lt(Asc(s)[i], Asc(s)[j])
  {
    DescSorted(s);
    var d, r := Desc(s), Asc(s);
    ReverseIndex(d);
    forall i, j | 0 <= i < j < |r|
      ensures Lt(r[i], r[j])
    {
      assert r[i] == d[|d| - 1 - i] && r[j] == d[|d| - 1 - j];
    }
  }

  /** `sort().reverse()` lists the keys newest first. */
  lemma DescIsReversedAsc(s: set<string>)
    ensures Reverse(Asc(s)) == Desc(s)
  {
    ReverseReverse(Desc(s));
  }
}
