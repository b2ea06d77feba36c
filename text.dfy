/** Byte-string operations the scanner borrows from Go's `strings` package and
    from JavaScript's String methods. A string is a sequence of characters; the
    bodies read from the network are modelled with one character per byte, so
    case mapping and whitespace are the ASCII ones. */
module Text {

  datatype Option<T> = None | Some(value: T)

  predicate HasPrefix(s: string, p: string) {
    |p| <= |s| && s[..|p|] == p
  }

  /** Go's strings.TrimPrefix. */
  function TrimPrefix(s: string, p: string): (r: string)
    ensures HasPrefix(s, p) ==> p + r == s
    ensures !HasPrefix(s, p) ==> r == s
  {
    if HasPrefix(s, p) then s[|p|..] else s
  }

  /** `sub` occurs in `s` starting at position `i`. */
  predicate OccursAt(s: string, sub: string, i: int) {
    0 <= i && i + |sub| <= |s| && s[i..i + |sub|] == sub
  }

  /** Go's strings.Contains (and JavaScript's String.prototype.includes). */
  predicate Contains(s: string, sub: string) {
    exists i | 0 <= i <= |s| - |sub| :: OccursAt(s, sub, i)
  }

  /** Occurrences in `s` after position 0 are the occurrences in `s[1..]`, shifted by one. */
  lemma OccursAtShift(s: string, sub: string)
    requires |s| > 0
    ensures forall k :: 1 <= k ==> (OccursAt(s, sub, k) <==> OccursAt(s[1..], sub, k - 1))
  {
    forall k | 1 <= k ensures OccursAt(s, sub, k) <==> OccursAt(s[1..], sub, k - 1) {
      if k + |sub| <= |s| {
        assert s[1..][k - 1..k - 1 + |sub|] == s[k..k + |sub|];
      }
    }
  }

  /** Go's strings.Index: the first position at which `sub` occurs, or -1. */
  function Index(s: string, sub: string): (r: int)
    ensures r == -1 || OccursAt(s, sub, r)
    ensures r == -1 <==> !Contains(s, sub)
    ensures forall j :: 0 <= j < r ==> !OccursAt(s, sub, j)
    decreases |s|
  {
    if |s| < |sub| then -1
    else if s[..|sub|] == sub then 0
    else
      var j := Index(s[1..], sub);
      OccursAtShift(s, sub);
      if j < 0 then -1 else j + 1
  }

  /** An occurrence inside a prefix of `s` is an occurrence in `s`. */
  lemma OccursInPrefix(s: string, n: int, sub: string, i: int)
    requires 0 <= n <= |s|
    requires OccursAt(s[..n], sub, i)
    ensures OccursAt(s, sub, i)
  {
    assert s[..n][i..i + |sub|] == s[i..i + |sub|];
  }

  /** An occurrence inside an infix of `s` is an occurrence in `s`. */
  lemma ContainsInInfix(s: string, a: int, b: int, sub: string)
    requires 0 <= a <= b <= |s|
    requires Contains(s[a..b], sub)
    ensures Contains(s, sub)
  {
    var i :| 0 <= i <= (b - a) - |sub| && OccursAt(s[a..b], sub, i);
    forall k | 0 <= k < |sub| ensures s[a + i + k] == sub[k] {
      assert s[a..b][i..i + |sub|][k] == sub[k];
    }
    assert s[a + i..a + i + |sub|] == sub;
    assert OccursAt(s, sub, a + i);
  }

  /** Containment is transitive. */
  lemma ContainsTransitive(s: string, mid: string, sub: string)
    requires Contains(s, mid) && Contains(mid, sub)
    ensures Contains(s, sub)
  {
    var i :| 0 <= i <= |s| - |mid| && OccursAt(s, mid, i);
    ContainsInInfix(s, i, i + |mid|, sub);
  }

  /** Joins `parts` with `sep` between consecutive parts (Go's strings.Join, JavaScript's Array.prototype.join). */
  function Join(parts: seq<string>, sep: string): string {
    if |parts| == 0 then ""
    else if |parts| == 1 then parts[0]
    else parts[0] + sep + Join(parts[1..], sep)
  }

  /** Go's strings.Split (and JavaScript's String.prototype.split) on a non-empty separator:
      the pieces between the occurrences of `sep`, found left to right. */
  function Split(s: string, sep: string): (parts: seq<string>)
    requires |sep| > 0
    ensures |parts| >= 1
    ensures forall k :: 0 <= k < |parts| ==> !Contains(parts[k], sep)
    ensures Join(parts, sep) == s
    decreases |s|
  {
    var i := Index(s, sep);
    if i < 0 then [s]
    else
      var head := s[..i];
      assert !Contains(head, sep) by {
        if Contains(head, sep) {
          var j :| 0 <= j <= |head| - |sep| && OccursAt(head, sep, j);
          OccursInPrefix(s, i, sep, j);
          assert false;
        }
      }
      var rest := Split(s[i + |sep|..], sep);
      assert s == head + sep + s[i + |sep|..];
      [head] + rest
  }

  /** The first piece of a split is everything before the first separator. */
  lemma SplitHead(s: string, sep: string)
    requires |sep| > 0
    ensures Index(s, sep) < 0 ==> Split(s, sep)[0] == s
    ensures Index(s, sep) >= 0 ==> Split(s, sep)[0] == s[..Index(s, sep)]
  {
  }

  /** The first piece of a split on one character: the longest prefix free of that character. */
  lemma SplitFirst(s: string, c: char)
    ensures var h := Split(s, [c])[0];
      && c !in h && HasPrefix(s, h)
      && (|h| == |s| || s[|h|] == c)
  {
    var parts := Split(s, [c]);
    var h := parts[0];
    assert !Contains(h, [c]);
    ContainsSingleton(h, c);
    SplitHead(s, [c]);
    var i := Index(s, [c]);
    if i >= 0 {
      assert s[i..i + 1] == [c];
      assert s[i] == c;
    }
  }

  lemma ContainsSingleton(s: string, c: char)
    ensures Contains(s, [c]) <==> c in s
  {
    if c in s {
      var i :| 0 <= i < |s| && s[i] == c;
      assert OccursAt(s, [c], i);
    }
    if Contains(s, [c]) {
      var i :| 0 <= i <= |s| - 1 && OccursAt(s, [c], i);
      assert s[i] == s[i..i + 1][0];
    }
  }

  /** Go's strings.TrimRight / TrimLeft / Trim with a set of characters to cut. */
  function TrimRightBy(s: string, cut: set<char>): (r: string)
    ensures |r| <= |s| && r == s[..|r|]
    ensures r == [] || r[|r| - 1] !in cut
    ensures forall i :: |r| <= i < |s| ==> s[i] in cut
    decreases |s|
  {
    if |s| > 0 && s[|s| - 1] in cut then TrimRightBy(s[..|s| - 1], cut) else s
  }

  /** TrimRightBy cuts exactly the tail of `cut` characters after position `n`. */
  lemma TrimRightByExact(s: string, cut: set<char>, n: nat)
    requires n <= |s| && (n == 0 || s[n - 1] !in cut)
    requires forall i :: n <= i < |s| ==> s[i] in cut
    ensures TrimRightBy(s, cut) == s[..n]
  {
  }

  function TrimLeftBy(s: string, cut: set<char>): (r: string)
    ensures |r| <= |s| && r == s[|s| - |r|..]
    ensures r == [] || r[0] !in cut
    ensures forall i :: 0 <= i < |s| - |r| ==> s[i] in cut
    decreases |s|
  {
    if |s| > 0 && s[0] in cut then TrimLeftBy(s[1..], cut) else s
  }

  /** `r` is `s` with the characters of `cut` taken off both ends, `a` of them from
      the front: everything before and after `r` is in `cut`, and `r`'s own ends are not. */
  predicate TrimmedAt(s: string, cut: set<char>, a: int, r: string) {
    && OccursAt(s, r, a)
    && (forall i :: 0 <= i < a ==> s[i] in cut)
    && (forall i :: a + |r| <= i < |s| ==> s[i] in cut)
    && (r == [] || (r[0] !in cut && r[|r| - 1] !in cut))
  }

  /** Cuts characters of `cut` from both ends. */
  function TrimBy(s: string, cut: set<char>): (r: string)
    ensures Contains(s, r)
    ensures r == [] <==> forall i :: 0 <= i < |s| ==> s[i] in cut
  {
    var l := TrimLeftBy(s, cut);
    TrimLeftThenRight(s, cut);
    TrimmedEmpty(s, cut, |s| - |l|, TrimRightBy(l, cut));
    TrimRightBy(l, cut)
  }

  /** TrimBy trims: what it returns is `s` with the characters of `cut` taken off both ends. */
  lemma TrimByTrims(s: string, cut: set<char>)
    ensures TrimmedAt(s, cut, |s| - |TrimLeftBy(s, cut)|, TrimBy(s, cut))
  {
    TrimLeftThenRight(s, cut);
  }

  /** Trimming the front and then the back is a trimming of both ends. */
  lemma TrimLeftThenRight(s: string, cut: set<char>)
    ensures TrimmedAt(s, cut, |s| - |TrimLeftBy(s, cut)|, TrimRightBy(TrimLeftBy(s, cut), cut))
  {
    var l := TrimLeftBy(s, cut);
    TrimmedOfParts(s, cut, l, TrimRightBy(l, cut));
  }

  /** A suffix `l` of `s` with only cut characters before it and a first character
      that is kept, then a prefix `r` of `l` with only cut characters after it and a
      last character that is kept, make a trimming of `s`. */
  lemma TrimmedOfParts(s: string, cut: set<char>, l: string, r: string)
    requires |l| <= |s| && l == s[|s| - |l|..]
    requires l == [] || l[0] !in cut
    requires forall i :: 0 <= i < |s| - |l| ==> s[i] in cut
    requires |r| <= |l| && r == l[..|r|]
    requires r == [] || r[|r| - 1] !in cut
    requires forall i :: |r| <= i < |l| ==> l[i] in cut
    ensures TrimmedAt(s, cut, |s| - |l|, r)
  {
    var a := |s| - |l|;
    assert OccursAt(s, r, a);
    assert r == [] || r[0] !in cut by {
      if r != [] {
        assert r[0] == l[0];
      }
    }
    forall i | a + |r| <= i < |s| ensures s[i] in cut {
      assert s[i] == l[i - a];
    }
  }

  /** A trimming is empty exactly when every character is cut. */
  lemma TrimmedEmpty(s: string, cut: set<char>, a: int, r: string)
    requires TrimmedAt(s, cut, a, r)
    ensures r == [] <==> forall i :: 0 <= i < |s| ==> s[i] in cut
  {
    if r != [] {
      assert s[a] == r[0];
    }
  }

  /** There is only one way to trim: any two trimmings of `s` by `cut` agree. */
  lemma TrimmedUnique(s: string, cut: set<char>, a1: int, r1: string, a2: int, r2: string)
    requires TrimmedAt(s, cut, a1, r1) && TrimmedAt(s, cut, a2, r2)
    ensures r1 == r2
  {
    TrimmedEmpty(s, cut, a1, r1);
    TrimmedEmpty(s, cut, a2, r2);
    if r1 != [] && r2 != [] {
      assert s[a1] == r1[0] && s[a2] == r2[0];
      assert a1 == a2;
      var b1 := a1 + |r1|;
      var b2 := a2 + |r2|;
      assert s[b1 - 1] == r1[|r1| - 1] && s[b2 - 1] == r2[|r2| - 1];
      assert b1 == b2;
    }
  }

  /** Any trimming of `s` by `cut` is the one TrimBy computes. */
  lemma TrimByExact(s: string, cut: set<char>, a: int, r: string)
    requires TrimmedAt(s, cut, a, r)
    ensures TrimBy(s, cut) == r
  {
    TrimByTrims(s, cut);
    TrimmedUnique(s, cut, |s| - |TrimLeftBy(s, cut)|, TrimBy(s, cut), a, r);
  }

  /** The whitespace Go's strings.TrimSpace removes from an ASCII string. */
  const AsciiSpace: set<char> := {' ', '\t', '\n', '\r', '\U{B}', '\U{C}'}

  /** Go's strings.TrimSpace on a byte string (ASCII whitespace only). */
  function TrimSpace(s: string): string {
    TrimBy(s, AsciiSpace)
  }

  function Lower(c: char): char {
    if 'A' <= c <= 'Z' then (c as int + 32) as char else c
  }

  function Upper(c: char): char {
    if 'a' <= c <= 'z' then (c as int - 32) as char else c
  }

  /** Go's strings.ToLower, ASCII letters only. */
  function ToLower(s: string): (r: string)
    ensures |r| == |s|
    ensures forall i :: 0 <= i < |s| ==> r[i] == Lower(s[i])
  {
    if s == [] then [] else [Lower(s[0])] + ToLower(s[1..])
  }

  /** No ASCII capital letters. */
  predicate IsLower(s: string) {
    forall i :: 0 <= i < |s| ==> Lower(s[i]) == s[i]
  }

  /** The result of ToLower is lower-case, and so is any infix of a lower-case string. */
  lemma LowerIsLower(s: string)
    ensures IsLower(ToLower(s))
  {
  }

  lemma InfixOfLower(s: string, a: int, b: int)
    requires IsLower(s) && 0 <= a <= b <= |s|
    ensures IsLower(s[a..b])
  {
  }

  /** JavaScript `charAt(0).toUpperCase() + slice(1)` on an ASCII word. */
  function Capitalize(w: string): (r: string)
    ensures |r| == |w|
    ensures |w| > 0 ==> r[0] == Upper(w[0]) && r[1..] == w[1..]
  {
    if w == [] then [] else [Upper(w[0])] + w[1..]
  }

  /** The elements of `xs` are pairwise distinct. */
  predicate Distinct<T(==)>(xs: seq<T>) {
    forall i, j :: 0 <= i < j < |xs| ==> xs[i] != xs[j]
  }

  /** `xs` with every element for which `keep` is false left out, in order. */
  function Filter<T>(xs: seq<T>, keep: T -> bool): (r: seq<T>)
    ensures |r| <= |xs|
    ensures forall i :: 0 <= i < |r| ==> r[i] in xs && keep(r[i])
    ensures forall i :: 0 <= i < |xs| && keep(xs[i]) ==> xs[i] in r
  {
    if xs == [] then []
    else if keep(xs[0]) then [xs[0]] + Filter(xs[1..], keep)
    else Filter(xs[1..], keep)
  }

  /** Filtering a three-element list, written out element by element. */
  lemma FilterThree<T>(a: T, b: T, c: T, keep: T -> bool)
    ensures Filter([a, b, c], keep) ==
      (if keep(a) then [a] else []) + (if keep(b) then [b] else []) + (if keep(c) then [c] else [])
  {
    assert [a, b, c][1..] == [b, c];
    assert [b, c][1..] == [c];
    assert [c][1..] == [];
    assert Filter([c], keep) == (if keep(c) then [c] else []);
    assert Filter([b, c], keep) == (if keep(b) then [b] else []) + Filter([c], keep);
    assert Filter([a, b, c], keep) == (if keep(a) then [a] else []) + Filter([b, c], keep);
  }

  /** The values `f` gives for the elements of `xs`, in order, with the `None`s dropped. */
  function FilterMap<T, U>(xs: seq<T>, f: T -> Option<U>): (ys: seq<U>)
    ensures |ys| <= |xs|
  {
    if xs == [] then []
    else
      var last := f(xs[|xs| - 1]);
      FilterMap(xs[..|xs| - 1], f) + (if last.Some? then [last.value] else [])
  }

  /** FilterMap works element by element: it distributes over concatenation. */
  lemma {:induction false} FilterMapAppend<T, U>(a: seq<T>, b: seq<T>, f: T -> Option<U>)
    ensures FilterMap(a + b, f) == FilterMap(a, f) + FilterMap(b, f)
    decreases |b|
  {
    if b != [] {
      var b' := b[..|b| - 1];
      assert (a + b)[..|a + b| - 1] == a + b';
      assert (a + b)[|a + b| - 1] == b[|b| - 1];
      FilterMapAppend(a, b', f);
    } else {
      assert a + b == a;
    }
  }

  /** Every value FilterMap yields is what `f` gives for some element. */
  lemma {:induction false} FilterMapSource<T, U>(xs: seq<T>, f: T -> Option<U>, y: U)
    requires y in FilterMap(xs, f)
    ensures exists i :: 0 <= i < |xs| && f(xs[i]) == Some(y)
    decreases |xs|
  {
    assert xs != [];
    var n := |xs| - 1;
    if y in FilterMap(xs[..n], f) {
      FilterMapSource(xs[..n], f, y);
      var i :| 0 <= i < n && f(xs[..n][i]) == Some(y);
      assert xs[..n][i] == xs[i];
    } else {
      assert f(xs[n]) == Some(y);
    }
  }

  /** Every value `f` gives an element of `xs` is kept. */
  lemma {:induction false} FilterMapComplete<T, U>(xs: seq<T>, f: T -> Option<U>, i: int)
    requires 0 <= i < |xs| && f(xs[i]).Some?
    ensures f(xs[i]).value in FilterMap(xs, f)
    decreases |xs|
  {
    var n := |xs| - 1;
    if i < n {
      FilterMapComplete(xs[..n], f, i);
      assert xs[..n][i] == xs[i];
    }
  }

  /** `xs` is obtained from `ys` by deleting elements, keeping the order. */
  predicate Subsequence<T(==)>(xs: seq<T>, ys: seq<T>)
    decreases |ys|
  {
    if xs == [] then true
    else if ys == [] then false
    else if xs[0] == ys[0] then Subsequence(xs[1..], ys[1..])
    else Subsequence(xs, ys[1..])
  }

  lemma {:induction false} FilterIsSubsequence<T>(xs: seq<T>, keep: T -> bool)
    ensures Subsequence(Filter(xs, keep), xs)
  {
    if xs != [] {
      FilterIsSubsequence(xs[1..], keep);
      var rest := Filter(xs[1..], keep);
      if !keep(xs[0]) && rest != [] {
        assert rest[0] in xs[1..];
        SubsequenceSkip(rest, xs[0], xs[1..]);
      }
    }
  }

  lemma {:induction false} SubsequenceSkip<T>(xs: seq<T>, y: T, ys: seq<T>)
    requires Subsequence(xs, ys)
    ensures Subsequence(xs, [y] + ys)
    decreases |ys|, 1
  {
    if xs != [] {
      if xs[0] == y {
        SubsequenceTail(xs, ys);
        assert ([y] + ys)[1..] == ys;
      } else {
        assert ([y] + ys)[1..] == ys;
      }
    }
  }

  lemma {:induction false} SubsequenceTail<T>(xs: seq<T>, ys: seq<T>)
    requires xs != [] && Subsequence(xs, ys)
    ensures Subsequence(xs[1..], ys)
    decreases |ys|, 0
  {
    if xs[0] == ys[0] {
      if xs[1..] != [] {
        SubsequenceSkip(xs[1..], ys[0], ys[1..]);
        assert [ys[0]] + ys[1..] == ys;
      }
    } else {
      SubsequenceTail(xs, ys[1..]);
      if xs[1..] != [] {
        SubsequenceSkip(xs[1..], ys[0], ys[1..]);
        assert [ys[0]] + ys[1..] == ys;
      }
    }
  }

  /** Filtering a duplicate-free sequence leaves it duplicate-free. */
  lemma {:induction false} FilterDistinct<T>(xs: seq<T>, keep: T -> bool)
    requires Distinct(xs)
    ensures Distinct(Filter(xs, keep))
  {
    if xs != [] {
      FilterDistinct(xs[1..], keep);
    }
  }

  /** Filtering a sequence grown by one element at the end. */
  lemma {:induction false} FilterSnoc<T>(xs: seq<T>, x: T, keep: T -> bool)
    ensures Filter(xs + [x], keep) == Filter(xs, keep) + (if keep(x) then [x] else [])
  {
    if xs == [] {
      assert [x][1..] == [];
    } else {
      assert (xs + [x])[0] == xs[0];
      assert (xs + [x])[1..] == xs[1..] + [x];
      FilterSnoc(xs[1..], x, keep);
    }
  }

  /** The first `n` elements, or all of them when there are fewer (Go's `s[:n]` guarded by `len(s) > n`). */
  function Take<T>(xs: seq<T>, n: nat): (r: seq<T>)
    ensures |r| <= n && |r| <= |xs|
    ensures r == xs[..|r|]
    ensures |xs| <= n ==> r == xs
  {
    if |xs| > n then xs[..n] else xs
  }

  /** In a duplicate-free sequence every element occurs exactly once. */
  lemma {:induction false} DistinctCount<T>(xs: seq<T>, x: T)
    requires Distinct(xs)
    ensures multiset(xs)[x] == if x in xs then 1 else 0
  {
    if xs != [] {
      DistinctCount(xs[1..], x);
      assert xs == [xs[0]] + xs[1..];
      assert xs[0] !in xs[1..];
    }
  }

  /** Two duplicate-free sequences with the same elements are permutations of each other. */
  lemma DistinctSameElements<T>(xs: seq<T>, ys: seq<T>)
    requires Distinct(xs) && Distinct(ys)
    requires forall x :: x in xs <==> x in ys
    ensures multiset(xs) == multiset(ys)
  {
    forall x ensures multiset(xs)[x] == multiset(ys)[x] {
      DistinctCount(xs, x);
      DistinctCount(ys, x);
    }
  }
}
