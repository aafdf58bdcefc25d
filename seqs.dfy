/** Sequence operations the meter code performs on JavaScript arrays: `filter`,
    push-then-shift bounded buffers, `Math.min(...xs)` / `Math.max(...xs)` / the
    summing `reduce`, and splitting text on a separator character. */
module Seqs {
  import opened Numeric

  // ---------------------------------------------------------------- filter

  /** Array.prototype.filter: the elements satisfying `p`, in their original order. */
  function Filter<T>(s: seq<T>, p: T -> bool): (r: seq<T>)
    ensures |r| <= |s|
    ensures forall i :: 0 <= i < |r| ==> r[i] in s && p(r[i])
    ensures forall i :: 0 <= i < |s| && p(s[i]) ==> s[i] in r
  {
    if s == [] then []
    else (if p(s[0]) then [s[0]] else []) + Filter(s[1..], p)
  }

  /** Filtering splits over concatenation: the filter keeps relative order. */
  lemma {:induction false} FilterAppend<T>(a: seq<T>, b: seq<T>, p: T -> bool)
    ensures Filter(a + b, p) == Filter(a, p) + Filter(b, p)
  {
    if a == [] {
      assert a + b == b;
    } else {
      assert (a + b)[1..] == a[1..] + b;
      FilterAppend(a[1..], b, p);
    }
  }

  /** A filter that every element passes returns its input unchanged. */
  lemma {:induction false} FilterKeepsAll<T>(s: seq<T>, p: T -> bool)
    requires forall i :: 0 <= i < |s| ==> p(s[i])
    ensures Filter(s, p) == s
  {
    if s != [] {
      FilterKeepsAll(s[1..], p);
    }
  }

  // ------------------------------------------------------ bounded buffers

  /** The last min(|s|, n) elements of `s`, in order. */
  function Last<T>(s: seq<T>, n: nat): (r: seq<T>)
    ensures |r| == if |s| <= n then |s| else n
  {
    if |s| <= n then s else s[|s| - n..]
  }

  /** `buf.push(x); if (buf.length > cap) buf.shift();` on a value copy of the buffer. */
  function PushBounded<T>(buf: seq<T>, x: T, cap: nat): (r: seq<T>)
    ensures 0 < cap && |buf| <= cap ==> r == Last(buf + [x], cap)
    ensures 0 < cap && |buf| <= cap ==> |r| <= cap && r[|r| - 1] == x
  {
    var pushed := buf + [x];
    if |pushed| > cap then pushed[1..] else pushed
  }

  /** Pushing onto the window of the last n values gives the window of the longer
      stream: a bounded buffer always holds the most recent n arrivals, oldest first. */
  lemma LastPush<T>(s: seq<T>, x: T, n: nat)
    requires 0 < n
    ensures PushBounded(Last(s, n), x, n) == Last(s + [x], n)
  {
    if |s| > n {
      assert Last(s, n) + [x] == (s + [x])[|s| - n..];
      assert (s + [x])[|s| - n..][1..] == (s + [x])[|s + [x]| - n..];
    }
  }

  /** `s` back to front; a log that stores each new entry in front holds its
      arrivals in this order, newest first. */
  function Reverse<T>(s: seq<T>): (r: seq<T>)
    ensures |r| == |s|
  {
    if s == [] then [] else Reverse(s[1..]) + [s[0]]
  }

  /** Putting the first arrival in front of `rest` after reversing the others. */
  lemma ReverseStep<T>(s: seq<T>, rest: seq<T>)
    requires s != []
    ensures Reverse(s[1..]) + ([s[0]] + rest) == Reverse(s) + rest
  {
    AppendAssoc(Reverse(s[1..]), [s[0]], rest);
  }

  lemma AppendAssoc<T>(a: seq<T>, b: seq<T>, c: seq<T>)
    ensures a + (b + c) == (a + b) + c
  {
  }

  // ------------------------------------------------------------ statistics

  /** `Math.min(...s)` for a non-empty array, folded from the left. */
  function SeqMin(s: seq<real>): real
    requires s != []
  {
    if |s| == 1 then s[0] else Min(SeqMin(s[..|s| - 1]), s[|s| - 1])
  }

  /** `Math.max(...s)` for a non-empty array, folded from the left. */
  function SeqMax(s: seq<real>): real
    requires s != []
  {
    if |s| == 1 then s[0] else Max(SeqMax(s[..|s| - 1]), s[|s| - 1])
  }

  /** SeqMin is the minimum: an element no greater than any other. */
  lemma {:induction false} SeqMinIsMinimum(s: seq<real>)
    requires s != []
    ensures SeqMin(s) in s
    ensures forall i :: 0 <= i < |s| ==> SeqMin(s) <= s[i]
  {
    if |s| > 1 {
      var init := s[..|s| - 1];
      SeqMinIsMinimum(init);
      assert forall i :: 0 <= i < |init| ==> init[i] == s[i];
    }
  }

  /** SeqMax is the maximum: an element no smaller than any other. */
  lemma {:induction false} SeqMaxIsMaximum(s: seq<real>)
    requires s != []
    ensures SeqMax(s) in s
    ensures forall i :: 0 <= i < |s| ==> s[i] <= SeqMax(s)
  {
    if |s| > 1 {
      var init := s[..|s| - 1];
      SeqMaxIsMaximum(init);
      assert forall i :: 0 <= i < |init| ==> init[i] == s[i];
    }
  }

  /** `s.reduce((a, b) => a + b, 0)`. */
  function Sum(s: seq<real>): real
  {
    if s == [] then 0.0 else Sum(s[..|s| - 1]) + s[|s| - 1]
  }

  /** n copies of x added up: n * x without a product for the solver to reason about. */
  function Times(n: nat, x: real): real
  {
    if n == 0 then 0.0 else Times(n - 1, x) + x
  }

  lemma {:induction false} TimesMonotone(n: nat, x: real, y: real)
    requires x <= y
    ensures Times(n, x) <= Times(n, y)
  {
    if n > 0 {
      TimesMonotone(n - 1, x, y);
    }
  }

  lemma {:induction false} TimesIsProduct(n: nat, x: real)
    ensures Times(n, x) == (n as real) * x
  {
    if n > 0 {
      TimesIsProduct(n - 1, x);
      assert (n as real) * x == ((n - 1) as real) * x + x;
    }
  }

  /** The sum of n values lies between n times their minimum and n times their maximum. */
  lemma {:induction false} SumBounds(s: seq<real>)
    requires s != []
    ensures Times(|s|, SeqMin(s)) <= Sum(s) <= Times(|s|, SeqMax(s))
  {
    if |s| == 1 {
      assert s[..0] == [];
    } else {
      var init, last := s[..|s| - 1], s[|s| - 1];
      SumBounds(init);
      TimesMonotone(|init|, SeqMin(s), SeqMin(init));
      TimesMonotone(|init|, SeqMax(init), SeqMax(s));
    }
  }

  lemma MulLeftMonotone(n: real, a: real, b: real)
    requires 0.0 <= n && a <= b
    ensures n * a <= n * b
  {
  }

  /** The `reduce` sum divided by the length: the arithmetic mean. */
  function Mean(s: seq<real>): real
    requires s != []
  {
    Sum(s) / (|s| as real)
  }

  lemma MeanBetweenMinMax(s: seq<real>)
    requires s != []
    ensures SeqMin(s) <= Mean(s) <= SeqMax(s)
  {
    SumBounds(s);
    QuotientBetween(Sum(s), |s|, SeqMin(s), SeqMax(s));
  }

  /** A total between k times lo and k times hi, shared out k ways, is between lo and hi. */
  lemma QuotientBetween(total: real, k: nat, lo: real, hi: real)
    requires k > 0 && Times(k, lo) <= total <= Times(k, hi)
    ensures lo <= total / (k as real) <= hi
  {
    TimesIsProduct(k, lo);
    TimesIsProduct(k, hi);
    DivBetween(total, k as real, lo, hi);
  }

  lemma DivBetween(total: real, n: real, lo: real, hi: real)
    requires n > 0.0
    requires n * lo <= total <= n * hi
    ensures lo <= total / n <= hi
    ensures (total / n) * n == total
  {
    var q := total / n;
    assert n * q == total;
    if q < lo {
      MulLeftMonotone(n, q, lo);
    }
    if q > hi {
      MulLeftMonotone(n, hi, q);
    }
  }

  /** A quotient of a and b by the same positive number keeps their order. */
  lemma DivMonotone(a: real, b: real, d: real)
    requires d > 0.0 && a <= b
    ensures a / d <= b / d
  {
    var qa, qb := a / d, b / d;
    assert qa * d == a && qb * d == b;
    if qa > qb {
      MulLeftMonotone(d, qb, qa);
    }
  }

  // ------------------------------------------------------------ splitting

  /** Text split on every occurrence of `sep` (String.prototype.split with a
      one-character separator): the pieces contain no separator. */
  function Split(s: string, sep: char): (parts: seq<string>)
    ensures |parts| >= 1
    ensures forall i :: 0 <= i < |parts| ==> sep !in parts[i]
  {
    if s == [] then [""]
    else if s[0] == sep then [""] + Split(s[1..], sep)
    else
      var rest := Split(s[1..], sep);
      [[s[0]] + rest[0]] + rest[1..]
  }

  /** Text free of the separator is one piece. */
  lemma {:induction false} SplitNone(a: string, sep: char)
    requires sep !in a
    ensures Split(a, sep) == [a]
  {
    if a != [] {
      assert forall i :: 0 <= i < |a| - 1 ==> a[1..][i] == a[i + 1];
      SplitNone(a[1..], sep);
      assert [a[0]] + a[1..] == a;
    }
  }

  /** A separator-free piece followed by the separator splits off as the first part. */
  lemma {:induction false} SplitCons(a: string, b: string, sep: char)
    requires sep !in a
    ensures Split(a + [sep] + b, sep) == [a] + Split(b, sep)
  {
    if a == [] {
      assert a + [sep] + b == [sep] + b;
      assert ([sep] + b)[1..] == b;
    } else {
      assert (a + [sep] + b)[1..] == a[1..] + [sep] + b;
      SplitCons(a[1..], b, sep);
      assert [a[0]] + a[1..] == a;
    }
  }
}
