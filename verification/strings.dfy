/**
 * The string operations behind the two summary outputs: the default array
 * sort (lexicographic by character code, a proper prefix first) and joining
 * with a separator, together with the split a consumer applies to read the
 * list back.
 */
module Strings {
  import opened Seqs

  // ---------------------------------------------------------------------------
  // Lexicographic order.
  // ---------------------------------------------------------------------------

  /** `a` sorts no later than `b`: compare character codes left to right; a proper prefix comes first. */
  predicate LexLe(a: string, b: string)
    decreases |a|
  {
    |a| == 0 || (|b| > 0 && (a[0] < b[0] || (a[0] == b[0] && LexLe(a[1..], b[1..]))))
  }

  predicate LexLt(a: string, b: string) {
    LexLe(a, b) && a != b
  }

  lemma {:induction false} LexLeReflexive(a: string)
    ensures LexLe(a, a)
    decreases |a|
  {
    if |a| > 0 {
      LexLeReflexive(a[1..]);
    }
  }

  lemma {:induction false} LexLeTotal(a: string, b: string)
    ensures LexLe(a, b) || LexLe(b, a)
    decreases |a|
  {
    if |a| > 0 && |b| > 0 && a[0] == b[0] {
      LexLeTotal(a[1..], b[1..]);
    }
  }

  lemma {:induction false} LexLeAntisymmetric(a: string, b: string)
    requires LexLe(a, b) && LexLe(b, a)
    ensures a == b
    decreases |a|
  {
    if |a| > 0 && |b| > 0 {
      LexLeAntisymmetric(a[1..], b[1..]);
      assert a == [a[0]] + a[1..] && b == [b[0]] + b[1..];
    }
  }

  lemma {:induction false} LexLeTransitive(a: string, b: string, c: string)
    requires LexLe(a, b) && LexLe(b, c)
    ensures LexLe(a, c)
    decreases |a|
  {
    if |a| > 0 && a[0] == b[0] && b[0] == c[0] {
      LexLeTransitive(a[1..], b[1..], c[1..]);
    }
  }

  // ---------------------------------------------------------------------------
  // Sorting.
  // ---------------------------------------------------------------------------

  predicate Sorted(s: seq<string>) {
    forall i, j :: 0 <= i < j < |s| ==> LexLe(s[i], s[j])
  }

  predicate StrictlySorted(s: seq<string>) {
    forall i, j :: 0 <= i < j < |s| ==> LexLt(s[i], s[j])
  }

  /** Places `x` in front of the first element it does not sort after. */
  function InsertSorted(x: string, s: seq<string>): (r: seq<string>)
    requires Sorted(s)
    ensures Sorted(r)
    ensures multiset(r) == multiset(s) + multiset{x}
    decreases |s|
  {
    if |s| == 0 then [x]
    else if LexLe(x, s[0]) then
      assert forall j :: 0 < j < |s| ==> LexLe(x, s[j]) by {
        forall j | 0 < j < |s|
          ensures LexLe(x, s[j])
        {
          LexLeTransitive(x, s[0], s[j]);
        }
      }
      [x] + s
    else
      var rest := InsertSorted(x, s[1..]);
      assert s == [s[0]] + s[1..];
      assert forall y :: y in rest ==> LexLe(s[0], y) by {
        LexLeTotal(x, s[0]);
        forall y | y in rest
          ensures LexLe(s[0], y)
        {
          assert y in multiset(rest);
          if y != x {
            assert y in multiset(s[1..]);
            var j :| 0 <= j < |s[1..]| && s[1..][j] == y;
            assert s[j + 1] == y;
          }
        }
      }
      assert forall j :: 0 <= j < |rest| ==> rest[j] in rest;
      [s[0]] + rest
  }

  /** Insertion sort: a sorted permutation of `s`. */
  function Sort(s: seq<string>): (r: seq<string>)
    ensures Sorted(r)
    ensures multiset(r) == multiset(s)
    decreases |s|
  {
    if |s| == 0 then []
    else
      assert s == [s[0]] + s[1..];
      InsertSorted(s[0], Sort(s[1..]))
  }

  /** A duplicate-free list has every element at most once in its multiset. */
  lemma {:induction false} NoDupCount(s: seq<string>, x: string)
    requires NoDup(s)
    ensures multiset(s)[x] <= 1
    decreases |s|
  {
    if |s| > 0 {
      var rest := s[1..];
      assert s == [s[0]] + rest;
      assert NoDup(rest) by {
        forall i, j | 0 <= i < j < |rest|
          ensures rest[i] != rest[j]
        {
          assert rest[i] == s[i + 1] && rest[j] == s[j + 1];
        }
      }
      NoDupCount(rest, x);
      if x == s[0] {
        assert x !in rest by {
          forall j | 0 <= j < |rest|
            ensures rest[j] != x
          {
            assert rest[j] == s[j + 1];
          }
        }
      }
    }
  }

  /** An element at two positions is counted twice. */
  lemma RepeatCount(s: seq<string>, i: int, j: int)
    requires 0 <= i < j < |s| && s[i] == s[j]
    ensures multiset(s)[s[i]] >= 2
  {
    assert s == s[..j] + s[j..];
    assert s[i] == s[..j][i];
    assert s[j] == s[j..][0];
  }

  /** Sorting a duplicate-free list yields a strictly increasing list. */
  lemma SortDistinct(s: seq<string>)
    requires NoDup(s)
    ensures StrictlySorted(Sort(s))
    ensures forall x :: x in Sort(s) <==> x in s
    ensures |Sort(s)| == |s|
  {
    var r := Sort(s);
    assert |r| == |multiset(r)| == |multiset(s)| == |s|;
    forall x
      ensures x in r <==> x in s
    {
      assert x in r <==> x in multiset(r);
    }
    forall i, j | 0 <= i < j < |r|
      ensures LexLt(r[i], r[j])
    {
      if r[i] == r[j] {
        RepeatCount(r, i, j);
        NoDupCount(s, r[i]);
        assert false;
      }
    }
  }

  lemma SameElementsBothEmpty(a: seq<string>, b: seq<string>)
    requires forall x :: x in a <==> x in b
    ensures |a| == 0 <==> |b| == 0
  {
    if |a| > 0 {
      assert a[0] in b;
    }
    if |b| > 0 {
      assert b[0] in a;
    }
  }

  /** Two strictly increasing lists with the same elements are equal. */
  lemma {:induction false} StrictlySortedUnique(a: seq<string>, b: seq<string>)
    requires StrictlySorted(a) && StrictlySorted(b)
    requires forall x :: x in a <==> x in b
    ensures a == b
    decreases |a|
  {
    SameElementsBothEmpty(a, b);
    if |a| > 0 {
      assert LexLe(b[0], a[0]) by {
        assert a[0] in b;
        var j :| 0 <= j < |b| && b[j] == a[0];
        if j == 0 {
          LexLeReflexive(b[0]);
        }
      }
      assert LexLe(a[0], b[0]) by {
        assert b[0] in a;
        var i :| 0 <= i < |a| && a[i] == b[0];
        if i == 0 {
          LexLeReflexive(a[0]);
        }
      }
      LexLeAntisymmetric(a[0], b[0]);
      var ta, tb := a[1..], b[1..];
      forall x
        ensures x in ta <==> x in tb
      {
        if x in ta {
          var i :| 0 <= i < |ta| && ta[i] == x;
          assert a[i + 1] == x && LexLt(a[0], a[i + 1]);
          assert x in b && x != b[0];
        }
        if x in tb {
          var j :| 0 <= j < |tb| && tb[j] == x;
          assert b[j + 1] == x && LexLt(b[0], b[j + 1]);
          assert x in a && x != a[0];
        }
      }
      assert StrictlySorted(ta) by {
        forall i, j | 0 <= i < j < |ta|
          ensures LexLt(ta[i], ta[j])
        {
          assert ta[i] == a[i + 1] && ta[j] == a[j + 1];
        }
      }
      assert StrictlySorted(tb) by {
        forall i, j | 0 <= i < j < |tb|
          ensures LexLt(tb[i], tb[j])
        {
          assert tb[i] == b[i + 1] && tb[j] == b[j + 1];
        }
      }
      StrictlySortedUnique(ta, tb);
      assert a == [a[0]] + ta && b == [b[0]] + tb;
    }
  }

  /** The sorted form of a duplicate-free list depends only on which elements it holds. */
  lemma SortIgnoresOrder(s: seq<string>, t: seq<string>)
    requires NoDup(s) && NoDup(t)
    requires forall x :: x in s <==> x in t
    ensures Sort(s) == Sort(t)
  {
    SortDistinct(s);
    SortDistinct(t);
    StrictlySortedUnique(Sort(s), Sort(t));
  }

  // ---------------------------------------------------------------------------
  // Joining and splitting.
  // ---------------------------------------------------------------------------

  /** The parts in order with `sep` between neighbours; no parts give the empty string. */
  function Join(parts: seq<string>, sep: char): (r: string)
    ensures |parts| == 1 ==> r == parts[0]
    ensures |parts| == 0 ==> r == ""
    decreases |parts|
  {
    if |parts| == 0 then ""
    else if |parts| == 1 then parts[0]
    else parts[0] + [sep] + Join(parts[1..], sep)
  }

  /** The pieces of `s` between occurrences of `sep`; always at least one piece. */
  function Split(s: string, sep: char): (r: seq<string>)
    ensures |r| >= 1
    ensures forall i :: 0 <= i < |r| ==> sep !in r[i]
    decreases |s|
  {
    if |s| == 0 then [""]
    else if s[0] == sep then [""] + Split(s[1..], sep)
    else
      var rest := Split(s[1..], sep);
      assert forall i :: 1 <= i < |rest| ==> sep !in rest[i];
      [[s[0]] + rest[0]] + rest[1..]
  }

  /** A separator-free word followed by more text splits into that word and the rest. */
  lemma {:induction false} SplitWord(w: string, sep: char, tail: seq<char>)
    requires sep !in w
    ensures Split(w, sep) == [w]
    ensures Split(w + [sep] + tail, sep) == [w] + Split(tail, sep)
    decreases |w|
  {
    if |w| > 0 {
      SplitWord(w[1..], sep, tail);
      assert (w + [sep] + tail)[1..] == w[1..] + [sep] + tail;
      assert [w[0]] + w[1..] == w;
    } else {
      assert w + [sep] + tail == [sep] + tail;
    }
  }

  /** Splitting a join recovers the parts, provided none contains the separator. */
  lemma {:induction false} SplitJoin(parts: seq<string>, sep: char)
    requires |parts| >= 1
    requires forall i :: 0 <= i < |parts| ==> sep !in parts[i]
    ensures Split(Join(parts, sep), sep) == parts
    decreases |parts|
  {
    if |parts| == 1 {
      SplitWord(parts[0], sep, []);
    } else {
      SplitJoin(parts[1..], sep);
      SplitWord(parts[0], sep, Join(parts[1..], sep));
      assert parts == [parts[0]] + parts[1..];
    }
  }

  /** Joining the pieces of a split gives back the original string. */
  lemma {:induction false} JoinSplit(s: string, sep: char)
    ensures Join(Split(s, sep), sep) == s
    decreases |s|
  {
    if |s| > 0 {
      JoinSplit(s[1..], sep);
      var rest := Split(s[1..], sep);
      assert s == [s[0]] + s[1..];
      if s[0] == sep {
        assert ([""] + rest)[1..] == rest;
      } else {
        var r := [[s[0]] + rest[0]] + rest[1..];
        assert r[1..] == rest[1..];
        if |rest| > 1 {
          assert Join(rest, sep) == rest[0] + [sep] + Join(rest[1..], sep);
        }
      }
    }
  }
}
