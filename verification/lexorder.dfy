/** Python's ordering of strings and of tuples of strings, and `sorted` on block keys. */
module LexOrder {

  /** Python's `a < b` on `str`: code points compared left to right, a proper prefix is smaller. */
  predicate StrLess(a: string, b: string)
    decreases |a|
  {
    if |b| == 0 then false
    else if |a| == 0 then true
    else a[0] < b[0] || (a[0] == b[0] && StrLess(a[1..], b[1..]))
  }

  lemma {:induction false} StrLessIrreflexive(a: string)
    ensures !StrLess(a, a)
    decreases |a|
  {
    if |a| > 0 {
      StrLessIrreflexive(a[1..]);
    }
  }

  lemma {:induction false} StrLessTransitive(a: string, b: string, c: string)
    requires StrLess(a, b) && StrLess(b, c)
    ensures StrLess(a, c)
    decreases |a|
  {
    if |a| > 0 && a[0] == b[0] && b[0] == c[0] {
      StrLessTransitive(a[1..], b[1..], c[1..]);
    }
  }

  lemma {:induction false} StrLessTotal(a: string, b: string)
    ensures a == b || StrLess(a, b) || StrLess(b, a)
    decreases |a|
  {
    if |a| > 0 && |b| > 0 && a[0] == b[0] {
      StrLessTotal(a[1..], b[1..]);
      if a[1..] == b[1..] {
        assert a == [a[0]] + a[1..] && b == [b[0]] + b[1..];
      }
    }
  }

  lemma {:induction false} StrLessAsymmetric(a: string, b: string)
    requires StrLess(a, b)
    ensures !StrLess(b, a)
  {
    if StrLess(b, a) {
      StrLessTransitive(a, b, a);
      StrLessIrreflexive(a);
    }
  }

  /** Python's `a < b` on tuples of strings: components compared left to right, a proper
      prefix is smaller. */
  predicate BlockLess(a: seq<string>, b: seq<string>)
    decreases |a|
  {
    if |b| == 0 then false
    else if |a| == 0 then true
    else StrLess(a[0], b[0]) || (a[0] == b[0] && BlockLess(a[1..], b[1..]))
  }

  /** Python's `a <= b` on tuples of strings. */
  predicate BlockLe(a: seq<string>, b: seq<string>) {
    a == b || BlockLess(a, b)
  }

  lemma {:induction false} BlockLessIrreflexive(a: seq<string>)
    ensures !BlockLess(a, a)
    decreases |a|
  {
    if |a| > 0 {
      StrLessIrreflexive(a[0]);
      BlockLessIrreflexive(a[1..]);
    }
  }

  lemma {:induction false} BlockLessTransitive(a: seq<string>, b: seq<string>, c: seq<string>)
    requires BlockLess(a, b) && BlockLess(b, c)
    ensures BlockLess(a, c)
    decreases |a|
  {
    if |a| > 0 {
      if StrLess(a[0], b[0]) && StrLess(b[0], c[0]) {
        StrLessTransitive(a[0], b[0], c[0]);
      } else if a[0] == b[0] && b[0] == c[0] {
        BlockLessTransitive(a[1..], b[1..], c[1..]);
      }
    }
  }

  lemma {:induction false} BlockLessTotal(a: seq<string>, b: seq<string>)
    ensures a == b || BlockLess(a, b) || BlockLess(b, a)
    decreases |a|
  {
    if |a| > 0 && |b| > 0 {
      StrLessTotal(a[0], b[0]);
      if a[0] == b[0] {
        BlockLessTotal(a[1..], b[1..]);
        if a[1..] == b[1..] {
          assert a == [a[0]] + a[1..] && b == [b[0]] + b[1..];
        }
      }
    }
  }

  lemma BlockLeTransitive(a: seq<string>, b: seq<string>, c: seq<string>)
    requires BlockLe(a, b) && BlockLe(b, c)
    ensures BlockLe(a, c)
  {
    if a != b && b != c {
      BlockLessTransitive(a, b, c);
    }
  }

  lemma BlockLeAntisymmetric(a: seq<string>, b: seq<string>)
    requires BlockLe(a, b) && BlockLe(b, a)
    ensures a == b
  {
    if a != b {
      BlockLessTransitive(a, b, a);
      BlockLessIrreflexive(a);
    }
  }

  /** Non-decreasing under Python's tuple ordering. */
  ghost predicate SortedBlocks(s: seq<seq<string>>) {
    forall i, j :: 0 <= i < j < |s| ==> BlockLe(s[i], s[j])
  }

  /** Inserts `x` into an already sorted list, before the first element greater than it. */
  function Insert(x: seq<string>, s: seq<seq<string>>): (r: seq<seq<string>>)
    requires SortedBlocks(s)
    ensures SortedBlocks(r)
    ensures multiset(r) == multiset(s) + multiset{x}
    decreases |s|
  {
    if |s| == 0 then [x]
    else if BlockLe(x, s[0]) then
      BelowAll(x, s);
      [x] + s
    else
      BlockLessTotal(x, s[0]);
      assert s == [s[0]] + s[1..];
      var rest := Insert(x, s[1..]);
      HeadBelowRest(s, x, rest);
      [s[0]] + rest
  }

  /** Below the head of a sorted list is below all of it. */
  lemma BelowAll(x: seq<string>, s: seq<seq<string>>)
    requires SortedBlocks(s) && |s| > 0 && BlockLe(x, s[0])
    ensures forall j :: 0 <= j < |s| ==> BlockLe(x, s[j])
  {
    forall j | 0 <= j < |s| ensures BlockLe(x, s[j]) {
      BlockLeTransitive(x, s[0], s[j]);
    }
  }

  /** The head of a sorted list stays below the tail with `x` inserted, when `x` is
      above it. */
  lemma HeadBelowRest(s: seq<seq<string>>, x: seq<string>, rest: seq<seq<string>>)
    requires SortedBlocks(s) && |s| > 0 && BlockLe(s[0], x)
    requires multiset(rest) == multiset(s[1..]) + multiset{x}
    ensures forall j :: 0 <= j < |rest| ==> BlockLe(s[0], rest[j])
  {
    forall j | 0 <= j < |rest| ensures BlockLe(s[0], rest[j]) {
      assert rest[j] in multiset(rest);
      if rest[j] != x {
        assert rest[j] in multiset(s[1..]);
        var k :| 0 <= k < |s[1..]| && s[1..][k] == rest[j];
        assert s[k + 1] == rest[j];
      }
    }
  }

  /** Python's `sorted` on a list of block keys. */
  function Sort(s: seq<seq<string>>): (r: seq<seq<string>>)
    ensures SortedBlocks(r)
    ensures multiset(r) == multiset(s)
    decreases |s|
  {
    if |s| == 0 then []
    else
      assert s == [s[0]] + s[1..];
      Insert(s[0], Sort(s[1..]))
  }

  lemma TailMultiset(a: seq<seq<string>>)
    requires |a| > 0
    ensures multiset(a[1..]) == multiset(a) - multiset{a[0]}
  {
    assert a == [a[0]] + a[1..];
  }

  /** The head of a sorted list is below every member of the list. */
  lemma SortedHeadLeast(a: seq<seq<string>>, x: seq<string>)
    requires SortedBlocks(a) && x in multiset(a)
    ensures BlockLe(a[0], x)
  {
    var i :| 0 <= i < |a| && a[i] == x;
    if i > 0 {
      assert BlockLe(a[0], a[i]);
    }
  }

  /** A list has exactly one sorted arrangement, so `Sort` agrees with any stable or
      unstable sorting algorithm, Python's Timsort included. */
  lemma {:induction false} SortedUnique(a: seq<seq<string>>, b: seq<seq<string>>)
    requires SortedBlocks(a) && SortedBlocks(b)
    requires multiset(a) == multiset(b)
    ensures a == b
    decreases |a|
  {
    if |a| > 0 {
      assert |b| == |multiset(b)| == |multiset(a)| == |a|;
      assert a[0] in multiset(b) && b[0] in multiset(a);
      SortedHeadLeast(b, a[0]);
      SortedHeadLeast(a, b[0]);
      BlockLeAntisymmetric(a[0], b[0]);
      TailMultiset(a);
      TailMultiset(b);
      assert SortedBlocks(a[1..]) && SortedBlocks(b[1..]);
      SortedUnique(a[1..], b[1..]);
      assert a == [a[0]] + a[1..] && b == [b[0]] + b[1..];
    }
  }
}
