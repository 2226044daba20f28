/** Counting, grouping and joining over sequences: the in-memory counterparts of the
    `Count`, `values(..).annotate(count=..)`, `order_by('-count')` queries and of
    Python's `', '.join(..)` that the application relies on. */
module Seqs {

  /** Number of occurrences of `x` in `xs`. */
  function Count<T(==)>(xs: seq<T>, x: T): (n: nat)
    ensures n <= |xs|
    ensures n == 0 <==> x !in xs
  {
    if xs == [] then 0
    else (if xs[0] == x then 1 else 0) + Count(xs[1..], x)
  }

  lemma {:induction false} CountAppend<T>(a: seq<T>, b: seq<T>, x: T)
    ensures Count(a + b, x) == Count(a, x) + Count(b, x)
  {
    if a == [] {
      assert a + b == b;
    } else {
      assert (a + b)[1..] == a[1..] + b;
      CountAppend(a[1..], b, x);
    }
  }

  /** Counting two different values never counts an element twice; when every element
      is one of them, the two counts add up to the length. */
  lemma {:induction false} CountTwo<T>(xs: seq<T>, a: T, b: T)
    requires a != b
    ensures Count(xs, a) + Count(xs, b) <= |xs|
    ensures (forall i :: 0 <= i < |xs| ==> xs[i] == a || xs[i] == b) ==>
              Count(xs, a) + Count(xs, b) == |xs|
  {
    if xs != [] {
      CountTwo(xs[1..], a, b);
      assert forall i :: 1 <= i < |xs| ==> xs[1..][i - 1] == xs[i];
    }
  }

  /** The same for three pairwise different values. */
  lemma {:induction false} CountThree<T>(xs: seq<T>, a: T, b: T, c: T)
    requires a != b && a != c && b != c
    ensures Count(xs, a) + Count(xs, b) + Count(xs, c) <= |xs|
    ensures (forall i :: 0 <= i < |xs| ==> xs[i] == a || xs[i] == b || xs[i] == c) ==>
              Count(xs, a) + Count(xs, b) + Count(xs, c) == |xs|
  {
    if xs != [] {
      CountThree(xs[1..], a, b, c);
      assert forall i :: 1 <= i < |xs| ==> xs[1..][i - 1] == xs[i];
    }
  }

  /** The distinct elements of `xs`, each once: the rows of a GROUP BY. */
  function Distinct<T(==,!new)>(xs: seq<T>): (r: seq<T>)
    ensures forall x :: x in r <==> x in xs
    ensures forall i, j :: 0 <= i < j < |r| ==> r[i] != r[j]
  {
    if xs == [] then []
    else
      var rest := Distinct(xs[1..]);
      if xs[0] in rest then rest else [xs[0]] + rest
  }

  /** An element of `candidates` whose number of occurrences in `xs` is largest;
      which one among equals is left to the implementation, as with the database. */
  function MostFrequentAmong<T(==,!new)>(candidates: seq<T>, xs: seq<T>): (r: T)
    requires |candidates| > 0
    ensures r in candidates
    ensures forall x :: x in candidates ==> Count(xs, x) <= Count(xs, r)
  {
    if |candidates| == 1 then candidates[0]
    else
      var best := MostFrequentAmong(candidates[1..], xs);
      if Count(xs, candidates[0]) >= Count(xs, best) then candidates[0] else best
  }

  /** An element of `candidates` whose number of occurrences in `xs` is smallest. */
  function LeastFrequentAmong<T(==,!new)>(candidates: seq<T>, xs: seq<T>): (r: T)
    requires |candidates| > 0
    ensures r in candidates
    ensures forall x :: x in candidates ==> Count(xs, r) <= Count(xs, x)
  {
    if |candidates| == 1 then candidates[0]
    else
      var best := LeastFrequentAmong(candidates[1..], xs);
      if Count(xs, candidates[0]) <= Count(xs, best) then candidates[0] else best
  }

  /** First row of `values(k).annotate(count).order_by('-count')`: a most frequent value. */
  function MostFrequent<T(==,!new)>(xs: seq<T>): (r: T)
    requires |xs| > 0
    ensures r in xs
    ensures forall x :: x in xs ==> Count(xs, x) <= Count(xs, r)
  {
    MostFrequentAmong(xs, xs)
  }

  /** Last row of the same query: a least frequent value that occurs at all. */
  function LeastFrequent<T(==,!new)>(xs: seq<T>): (r: T)
    requires |xs| > 0
    ensures r in xs
    ensures forall x :: x in xs ==> Count(xs, r) <= Count(xs, x)
  {
    LeastFrequentAmong(xs, xs)
  }

  /** `sep.join(parts)` */
  function Join(parts: seq<string>, sep: string): string
  {
    if |parts| == 0 then ""
    else if |parts| == 1 then parts[0]
    else parts[0] + sep + Join(parts[1..], sep)
  }

  /** Index of the first occurrence of `sep` in `s`, or `|s|` when there is none. */
  function FindSep(s: string, sep: string): (i: nat)
    requires |sep| > 0
    ensures i <= |s|
    ensures i < |s| ==> i + |sep| <= |s| && s[i..i + |sep|] == sep
  {
    if |s| < |sep| then |s|
    else if s[..|sep|] == sep then 0
    else 1 + FindSep(s[1..], sep)
  }

  /** `s.split(sep)`: the inverse of `Join` for parts that do not contain the separator. */
  function Split(s: string, sep: string): (parts: seq<string>)
    requires |sep| > 0
    ensures |parts| > 0
    decreases |s|
  {
    var i := FindSep(s, sep);
    if i == |s| then [s]
    else [s[..i]] + Split(s[i + |sep|..], sep)
  }

  lemma {:induction false} FindSepAbsent(s: string, sep: string)
    requires |sep| > 0 && sep[0] !in s
    ensures FindSep(s, sep) == |s|
  {
    if |s| >= |sep| {
      assert s[..|sep|][0] == s[0] != sep[0];
      FindSepAbsent(s[1..], sep);
    }
  }

  lemma {:induction false} FindSepAfter(x: string, sep: string, rest: string)
    requires |sep| > 0 && sep[0] !in x
    ensures FindSep(x + sep + rest, sep) == |x|
  {
    var s := x + sep + rest;
    if x == [] {
      assert s[..|sep|] == sep;
    } else {
      assert s[..|sep|][0] == x[0] != sep[0];
      assert s[1..] == x[1..] + sep + rest;
      FindSepAfter(x[1..], sep, rest);
    }
  }

  /** Splitting a first part that does not contain the separator's first character,
      followed by the separator, peels that part off. */
  lemma SplitFirst(x: string, sep: string, rest: string)
    requires |sep| > 0 && sep[0] !in x
    ensures Split(x + sep + rest, sep) == [x] + Split(rest, sep)
  {
    var s := x + sep + rest;
    FindSepAfter(x, sep, rest);
    assert s[..|x|] == x;
    assert s[|x| + |sep|..] == rest;
  }

  /** Joining parts that do not contain the separator's first character loses nothing:
      splitting the joined string gives the parts back. */
  lemma {:induction false} SplitJoin(parts: seq<string>, sep: string)
    requires |parts| > 0 && |sep| > 0
    requires forall k :: 0 <= k < |parts| ==> sep[0] !in parts[k]
    ensures Split(Join(parts, sep), sep) == parts
  {
    if |parts| == 1 {
      FindSepAbsent(parts[0], sep);
    } else {
      var rest := Join(parts[1..], sep);
      assert Join(parts, sep) == parts[0] + sep + rest;
      SplitFirst(parts[0], sep, rest);
      SplitJoin(parts[1..], sep);
      assert parts == [parts[0]] + parts[1..];
    }
  }
}
