/**
 * Keyed collections as JavaScript keeps them: a `Set`, or the string keys of
 * a plain object, list their members in order of first insertion.  Shared by
 * the industry list of the translator and the group-by aggregations of the
 * placements map.
 */
module InsertionOrder {

  predicate Distinct<T(==)>(s: seq<T>)
  {
    forall i, j :: 0 <= i < j < |s| ==> s[i] != s[j]
  }

  /** Set.add for each of `xs` in turn, on a set kept in insertion order. */
  function AddAll(acc: seq<string>, xs: seq<string>): (r: seq<string>)
    ensures forall x :: x in r <==> x in acc || x in xs
  {
    if xs == [] then acc
    else
      var r := AddAll(acc, xs[..|xs| - 1]);
      var x := xs[|xs| - 1];
      assert xs == xs[..|xs| - 1] + [x];
      if x in r then r else r + [x]
  }

  lemma {:induction false} AddAllDistinct(acc: seq<string>, xs: seq<string>)
    requires Distinct(acc)
    ensures Distinct(AddAll(acc, xs))
  {
    if xs != [] {
      AddAllDistinct(acc, xs[..|xs| - 1]);
    }
  }

  lemma {:induction false} DistinctCountsOnce<T>(s: seq<T>, x: T)
    requires Distinct(s)
    ensures multiset(s)[x] <= 1
  {
    if s != [] {
      var t := s[1..];
      assert s == [s[0]] + t;
      assert Distinct(t) by {
        forall i, j | 0 <= i < j < |t|
          ensures t[i] != t[j]
        {
          assert t[i] == s[i + 1] && t[j] == s[j + 1];
        }
      }
      DistinctCountsOnce(t, x);
    }
  }

  lemma RepeatCountsTwice<T>(s: seq<T>, i: int, j: int)
    requires 0 <= i < j < |s| && s[i] == s[j]
    ensures multiset(s)[s[i]] >= 2
  {
    assert s == s[..j] + s[j..];
    assert s[i] in s[..j];
    assert s[j..][0] == s[j];
    assert s[j] in s[j..];
  }


  /** The distinct members of `xs` in order of first appearance. */
  function Firsts(xs: seq<string>): seq<string>
  {
    AddAll([], xs)
  }

  lemma FirstsDistinct(xs: seq<string>)
    ensures Distinct(Firsts(xs))
    ensures forall x :: x in Firsts(xs) <==> x in xs
  {
    AddAllDistinct([], xs);
  }

  /** Each member's number of occurrences in `xs`, summed over `keys`. */
  function SumOver(keys: seq<string>, xs: seq<string>): nat
  {
    if keys == [] then 0 else multiset(xs)[keys[0]] + SumOver(keys[1..], xs)
  }

  lemma {:induction false} SumOverSnoc(keys: seq<string>, xs: seq<string>, x: string)
    ensures SumOver(keys, xs + [x]) == SumOver(keys, xs) + multiset(keys)[x]
  {
    if keys != [] {
      SumOverSnoc(keys[1..], xs, x);
      assert keys == [keys[0]] + keys[1..];
    }
  }

  lemma {:induction false} SumOverAppend(a: seq<string>, b: seq<string>, xs: seq<string>)
    ensures SumOver(a + b, xs) == SumOver(a, xs) + SumOver(b, xs)
  {
    if a != [] {
      assert (a + b)[0] == a[0];
      assert (a + b)[1..] == a[1..] + b;
      SumOverAppend(a[1..], b, xs);
    } else {
      assert a + b == b;
    }
  }

  /** Counting, per distinct member, its occurrences accounts for every element exactly once. */
  lemma {:induction false} FirstsCoverAll(xs: seq<string>)
    ensures SumOver(Firsts(xs), xs) == |xs|
  {
    if xs != [] {
      var ys := xs[..|xs| - 1];
      var x := xs[|xs| - 1];
      assert xs == ys + [x];
      var k := Firsts(ys);
      FirstsCoverAll(ys);
      FirstsDistinct(ys);
      SumOverSnoc(k, ys, x);
      DistinctCountsOnce(k, x);
      if x !in k {
        assert Firsts(xs) == k + [x];
        SumOverAppend(k, [x], xs);
        assert x !in ys;
        assert SumOver([x], xs) == multiset(xs)[x] + SumOver([], xs);
      } else {
        assert Firsts(xs) == k;
      }
    }
  }
}
