/**
 * Array.prototype.sort as the handlers use it: a stable sort under a
 * comparator, modelled as insertion sort on a sequence. `le(a, b)` holds when
 * the comparator does not put `b` strictly before `a` (for `(a, b) => a.k - b.k`
 * that is `a.k <= b.k`). Strings sorted without a comparator use the
 * lexicographic order `StrLe`.
 */
module Sorting {

  ghost predicate TotalPreorder<T(!new)>(le: (T, T) -> bool)
  {
    && (forall a, b :: le(a, b) || le(b, a))
    && (forall a, b, c :: le(a, b) && le(b, c) ==> le(a, c))
  }

  ghost predicate SortedBy<T>(s: seq<T>, le: (T, T) -> bool)
  {
    forall i, j :: 0 <= i < j < |s| ==> le(s[i], s[j])
  }

  /** Places `x` after every element it does not precede: later equal elements stay later. */
  function Insert<T>(x: T, s: seq<T>, le: (T, T) -> bool): (r: seq<T>)
    ensures multiset(r) == multiset(s) + multiset{x}
    ensures |r| == |s| + 1
  {
    if s == [] then [x]
    else if le(s[0], x) then
      assert s == [s[0]] + s[1..];
      [s[0]] + Insert(x, s[1..], le)
    else [x] + s
  }

  /** A stable sort: elements are inserted in input order. */
  function Sort<T>(s: seq<T>, le: (T, T) -> bool): (r: seq<T>)
    ensures multiset(r) == multiset(s)
    ensures |r| == |s|
  {
    if s == [] then []
    else
      assert s == s[..|s| - 1] + [s[|s| - 1]];
      Insert(s[|s| - 1], Sort(s[..|s| - 1], le), le)
  }

  lemma {:induction false} InsertSorted<T(!new)>(x: T, s: seq<T>, le: (T, T) -> bool)
    requires TotalPreorder(le)
    requires SortedBy(s, le)
    ensures SortedBy(Insert(x, s, le), le)
  {
    if s != [] && le(s[0], x) {
      InsertSorted(x, s[1..], le);
      var r := Insert(x, s, le);
      var tail := Insert(x, s[1..], le);
      assert r == [s[0]] + tail;
      forall k | 0 <= k < |tail| ensures le(s[0], tail[k]) {
        assert tail[k] in multiset(tail);
        assert tail[k] in multiset(s[1..]) + multiset{x};
        if tail[k] != x || tail[k] in multiset(s[1..]) {
          if tail[k] in multiset(s[1..]) {
            var m :| 0 <= m < |s[1..]| && s[1..][m] == tail[k];
            assert s[1 + m] == tail[k];
          }
        }
      }
    }
  }

  lemma {:induction false} SortIsSorted<T(!new)>(s: seq<T>, le: (T, T) -> bool)
    requires TotalPreorder(le)
    ensures SortedBy(Sort(s, le), le)
  {
    if s != [] {
      SortIsSorted(s[..|s| - 1], le);
      InsertSorted(s[|s| - 1], Sort(s[..|s| - 1], le), le);
    }
  }

  /** The first element of a sorted sequence precedes every element of the input. */
  lemma SortedHeadIsLeast<T(!new)>(s: seq<T>, le: (T, T) -> bool, k: int)
    requires TotalPreorder(le)
    requires 0 <= k < |s|
    ensures le(Sort(s, le)[0], s[k])
  {
    SortIsSorted(s, le);
    var r := Sort(s, le);
    assert s[k] in multiset(s);
    assert s[k] in multiset(r);
    var m :| 0 <= m < |r| && r[m] == s[k];
    if m > 0 {
      assert le(r[0], r[m]);
    }
  }

  /** Removing the same element from two equal multisets leaves equal rests. */
  lemma RestsAgree<T>(s: seq<T>, t: seq<T>, w: nat)
    requires multiset(s) == multiset(t)
    requires w < |s| && |t| >= 1 && s[w] == t[0]
    ensures multiset(s[..w] + s[w + 1..]) == multiset(t[1..])
  {
    assert s == s[..w] + [s[w]] + s[w + 1..];
    assert multiset(s) == multiset(s[..w] + s[w + 1..]) + multiset{s[w]};
    assert t == [t[0]] + t[1..];
    assert multiset(t) == multiset{t[0]} + multiset(t[1..]);
    calc {
      multiset(s[..w] + s[w + 1..]);
      multiset(s) - multiset{s[w]};
      multiset(t) - multiset{t[0]};
      multiset(t[1..]);
    }
  }

  /**
   * In a sorted permutation `t` of `s`, the second element is an input
   * element other than the first one's and precedes every other input element.
   */
  lemma RunnerUpOf<T(!new)>(s: seq<T>, t: seq<T>, le: (T, T) -> bool) returns (w: nat, r: nat)
    requires TotalPreorder(le) && SortedBy(t, le)
    requires multiset(s) == multiset(t) && |t| == |s| >= 2
    ensures w < |s| && r < |s| && w != r && s[w] == t[0] && s[r] == t[1]
    ensures forall k :: 0 <= k < |s| && k != w ==> le(t[1], s[k])
  {
    assert t[0] in multiset(s);
    var w0 :| 0 <= w0 < |s| && s[w0] == t[0];
    w := w0;
    var rest := s[..w] + s[w + 1..];
    RestsAgree(s, t, w);
    assert t[1] == t[1..][0];
    assert t[1] in multiset(rest);
    var j :| 0 <= j < |rest| && rest[j] == t[1];
    r := if j < w then j else j + 1;
    forall k | 0 <= k < |s| && k != w
      ensures le(t[1], s[k])
    {
      assert rest[if k < w then k else k - 1] == s[k];
      assert s[k] in multiset(t[1..]);
      var m :| 0 <= m < |t[1..]| && t[1..][m] == s[k];
      if m > 0 {
        assert le(t[1], t[1 + m]);
      }
    }
  }

  /**
   * The second element of a sorted sequence is some other input element than
   * the first one's, and it precedes every input element but that one.
   */
  lemma SortedRunnerUp<T(!new)>(s: seq<T>, le: (T, T) -> bool) returns (w: nat, r: nat)
    requires TotalPreorder(le)
    requires |s| >= 2
    ensures |Sort(s, le)| == |s| && w < |s| && r < |s| && w != r
    ensures s[w] == Sort(s, le)[0] && s[r] == Sort(s, le)[1]
    ensures forall k :: 0 <= k < |s| && k != w ==> le(Sort(s, le)[1], s[k])
  {
    SortIsSorted(s, le);
    w, r := RunnerUpOf(s, Sort(s, le), le);
  }

  /** Lexicographic order of strings by character code. */
  predicate StrLe(a: string, b: string)
  {
    a == [] || (b != [] && (a[0] < b[0] || (a[0] == b[0] && StrLe(a[1..], b[1..]))))
  }

  lemma {:induction false} StrLeTotal(a: string, b: string)
    ensures StrLe(a, b) || StrLe(b, a)
  {
    if a != [] && b != [] && a[0] == b[0] {
      StrLeTotal(a[1..], b[1..]);
    }
  }

  lemma {:induction false} StrLeTransitive(a: string, b: string, c: string)
    requires StrLe(a, b) && StrLe(b, c)
    ensures StrLe(a, c)
  {
    if a != [] && b != [] && c != [] && a[0] == b[0] && b[0] == c[0] {
      StrLeTransitive(a[1..], b[1..], c[1..]);
    }
  }

  lemma {:induction false} StrLeAntisymmetric(a: string, b: string)
    requires StrLe(a, b) && StrLe(b, a)
    ensures a == b
  {
    if a != [] && b != [] {
      StrLeAntisymmetric(a[1..], b[1..]);
      assert a == [a[0]] + a[1..];
      assert b == [b[0]] + b[1..];
    }
  }

  lemma StrLeIsTotalPreorder()
    ensures TotalPreorder(StrLe)
  {
    forall a: string, b: string ensures StrLe(a, b) || StrLe(b, a) {
      StrLeTotal(a, b);
    }
    forall a: string, b: string, c: string | StrLe(a, b) && StrLe(b, c) ensures StrLe(a, c) {
      StrLeTransitive(a, b, c);
    }
  }
}
