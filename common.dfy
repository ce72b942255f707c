/** Helpers shared by every screen of the model: JavaScript-style optional
    values and truthiness, string search and case folding, decimal
    formatting and parsing, order-preserving filtering, a stable insertion
    sort and the code-unit order on strings. */
module Common {

  datatype Option<+T> = None | Some(value: T)

  /** JavaScript truthiness of an optional string: present and not empty. */
  predicate Truthy(o: Option<string>) {
    o.Some? && o.value != ""
  }

  /** `o || fallback` for an optional string. */
  function OrElse(o: Option<string>, fallback: string): string {
    if Truthy(o) then o.value else fallback
  }

  /** `s || null` for a form field: the empty string becomes null. */
  function OrNull(s: string): Option<string> {
    if s == "" then None else Some(s)
  }

  // ---------------------------------------------------------------------
  // Case folding and substring search (`toLowerCase`, `includes`)
  // ---------------------------------------------------------------------

  /** `toLowerCase` on one code unit, for the capitals A-Z (U+0041-U+005A),
      А-Я (U+0410-U+042F) and Ѐ-Џ (U+0400-U+040F); every other code unit
      is kept. */
  function LowerChar(c: char): char {
    if 'A' <= c <= 'Z' then (c as int + 32) as char
    else if 'А' <= c <= 'Я' then (c as int + 32) as char
    else if 'Ѐ' <= c <= 'Џ' then (c as int + 80) as char
    else c
  }

  function Lower(s: string): (r: string)
    ensures |r| == |s|
    ensures forall i :: 0 <= i < |s| && ('A' <= s[i] <= 'Z' || 'А' <= s[i] <= 'Я') ==> r[i] == (s[i] as int + 32) as char
    ensures forall i :: 0 <= i < |s| && 'Ѐ' <= s[i] <= 'Џ' ==> r[i] == (s[i] as int + 80) as char
    ensures forall i :: 0 <= i < |s| && !('A' <= s[i] <= 'Z' || 'А' <= s[i] <= 'Я' || 'Ѐ' <= s[i] <= 'Џ') ==> r[i] == s[i]
  {
    seq(|s|, i requires 0 <= i < |s| => LowerChar(s[i]))
  }

  /** Lower-casing twice is lower-casing once. */
  lemma LowerIdempotent(s: string)
    ensures Lower(Lower(s)) == Lower(s)
  {
    forall i | 0 <= i < |s| ensures LowerChar(LowerChar(s[i])) == LowerChar(s[i]) {
      var c := s[i];
      if 'A' <= c <= 'Z' {
        assert 'a' <= LowerChar(c) <= 'z';
      }
    }
  }

  predicate StartsWith(s: string, prefix: string) {
    |prefix| <= |s| && s[..|prefix|] == prefix
  }

  /** `s.includes(t)`: `t` occurs somewhere in `s`. */
  predicate Contains(s: string, t: string)
    decreases |s|
  {
    StartsWith(s, t) || (|s| > 0 && Contains(s[1..], t))
  }

  /** Every string contains the empty string, as in JavaScript. */
  lemma ContainsEmpty(s: string)
    ensures Contains(s, "")
  {
    assert StartsWith(s, "");
  }

  /** A string that contains `t` is at least as long as `t`. */
  lemma {:induction false} ContainsLength(s: string, t: string)
    requires Contains(s, t)
    ensures |t| <= |s|
    decreases |s|
  {
    if !StartsWith(s, t) {
      ContainsLength(s[1..], t);
    }
  }

  // ---------------------------------------------------------------------
  // Decimal formatting (`toString`, `padStart(2, '0')`) and its inverse
  // ---------------------------------------------------------------------

  predicate IsDigit(c: char) {
    '0' <= c <= '9'
  }

  function DigitChar(d: nat): (c: char)
    requires d < 10
    ensures IsDigit(c) && c as int - '0' as int == d
  {
    (d + '0' as int) as char
  }

  /** `n.toString()` for a non-negative integer. */
  function NatToString(n: nat): (s: string)
    ensures 1 <= |s|
    ensures forall i :: 0 <= i < |s| ==> IsDigit(s[i])
    ensures n < 10 <==> |s| == 1
  {
    if n < 10 then [DigitChar(n)] else NatToString(n / 10) + [DigitChar(n % 10)]
  }

  /** `i.toString()` for any integer. */
  function IntToString(i: int): string {
    if i < 0 then "-" + NatToString(-i) else NatToString(i)
  }

  /** `s.padStart(2, '0')`. */
  function PadStart2(s: string): (r: string)
    ensures 2 <= |r|
  {
    if |s| == 0 then "00" else if |s| == 1 then "0" + s else s
  }

  /** The decimal value of a string of digits; None for an empty string or
      one with any other character. */
  function ParseDigits(s: string): Option<nat>
  {
    if |s| == 0 || !IsDigit(s[|s| - 1]) then None
    else if |s| == 1 then Some(s[0] as int - '0' as int)
    else match ParseDigits(s[..|s| - 1])
      case None => None
      case Some(p) => Some(p * 10 + (s[|s| - 1] as int - '0' as int))
  }

  /** Parsing undoes formatting: the decimal form of `n` reads back as `n`. */
  lemma {:induction false} ParseNatToString(n: nat)
    ensures ParseDigits(NatToString(n)) == Some(n)
  {
    var s := NatToString(n);
    if n >= 10 {
      ParseNatToString(n / 10);
      assert s[..|s| - 1] == NatToString(n / 10);
    }
  }

  /** A leading zero added by `padStart` does not change the value read back. */
  lemma ParsePadded(n: nat)
    ensures ParseDigits(PadStart2(NatToString(n))) == Some(n)
  {
    if n < 10 {
      assert PadStart2(NatToString(n)) == ['0', DigitChar(n)];
      ParseZeroDigit(n);
    } else {
      assert PadStart2(NatToString(n)) == NatToString(n);
      ParseNatToString(n);
    }
  }

  lemma ParseZeroDigit(d: nat)
    requires d < 10
    ensures ParseDigits(['0', DigitChar(d)]) == Some(d)
  {
    assert ['0', DigitChar(d)][..1] == ['0'];
  }

  /** Reads "a:bb" (digits, a colon, two digits below 60) as a * 60 + bb. */
  function ParseSixty(s: string): Option<nat> {
    if |s| < 4 || s[|s| - 3] != ':' then None
    else match (ParseDigits(s[..|s| - 3]), ParseDigits(s[|s| - 2..]))
      case (Some(a), Some(b)) => if b < 60 then Some(a * 60 + b) else None
      case _ => None
  }

  /** Whatever digits stand for `n / 60`, appending a colon and the padded
      remainder reads back as `n`. */
  lemma ParseSixtyOf(a: string, n: nat)
    requires ParseDigits(a) == Some(n / 60)
    ensures ParseSixty(a + ":" + PadStart2(NatToString(n % 60))) == Some(n)
  {
    var b := PadStart2(NatToString(n % 60));
    ParsePadded(n % 60);
    PadBelowHundred(n % 60);
    ColonSplit(a, b);
    DivMod60(n);
  }

  /** A number below 100 pads to exactly two characters. */
  lemma PadBelowHundred(m: nat)
    requires m < 100
    ensures |PadStart2(NatToString(m))| == 2
  {
    if m >= 10 {
      assert NatToString(m) == NatToString(m / 10) + [DigitChar(m % 10)];
    }
  }

  /** A number below 100 pads to its two digits. */
  lemma PadTwo(n: nat)
    requires n < 100
    ensures PadStart2(NatToString(n)) == [DigitChar(n / 10), DigitChar(n % 10)]
  {
    if n >= 10 {
      assert NatToString(n) == NatToString(n / 10) + [DigitChar(n % 10)];
    }
  }

  /** The two sides of "a:bb" are a and bb. */
  lemma ColonSplit(a: string, b: string)
    requires |b| == 2
    ensures var s := a + ":" + b;
            |s| >= 3 && s[|s| - 3] == ':' && s[..|s| - 3] == a && s[|s| - 2..] == b
  {
  }

  lemma DivMod60(n: nat)
    ensures (n / 60) * 60 + n % 60 == n && n % 60 < 60
  {
  }

  // ---------------------------------------------------------------------
  // Order-preserving filtering (`Array.prototype.filter`)
  // ---------------------------------------------------------------------

  /** The elements of `xs` that satisfy `p`, in their order: never more
      than `xs` has, and every one satisfies `p`. */
  function Filter<T>(xs: seq<T>, p: T -> bool): (r: seq<T>)
    ensures |r| <= |xs|
    ensures forall i :: 0 <= i < |r| ==> p(r[i])
  {
    if xs == [] then []
    else (if p(xs[0]) then [xs[0]] else []) + Filter(xs[1..], p)
  }

  /** A non-empty sequence is its front followed by its last element. */
  lemma SplitLast<T>(xs: seq<T>)
    requires xs != []
    ensures xs == xs[..|xs| - 1] + [xs[|xs| - 1]]
  {
  }

  /** A prefix one longer adds the next element. */
  lemma PrefixStep<T>(xs: seq<T>, i: nat)
    requires i < |xs|
    ensures xs[..i + 1] == xs[..i] + [xs[i]]
  {
  }

  /** An element is kept exactly when it occurs and satisfies `p`. */
  lemma {:induction false} FilterMembers<T>(xs: seq<T>, p: T -> bool, x: T)
    ensures x in Filter(xs, p) <==> x in xs && p(x)
  {
    if xs != [] {
      FilterMembers(xs[1..], p, x);
      assert xs == [xs[0]] + xs[1..];
    }
  }

  /** Filtering distributes over concatenation. */
  lemma {:induction false} FilterConcat<T>(a: seq<T>, b: seq<T>, p: T -> bool)
    ensures Filter(a + b, p) == Filter(a, p) + Filter(b, p)
  {
    if a != [] {
      var head := if p(a[0]) then [a[0]] else [];
      assert (a + b)[0] == a[0] && (a + b)[1..] == a[1..] + b;
      FilterConcat(a[1..], b, p);
      calc {
        Filter(a + b, p);
        head + Filter(a[1..] + b, p);
        head + (Filter(a[1..], p) + Filter(b, p));
        (head + Filter(a[1..], p)) + Filter(b, p);
      }
    } else {
      assert a + b == b;
    }
  }

  /** A filter whose predicate holds everywhere keeps the whole sequence. */
  lemma {:induction false} FilterAll<T>(xs: seq<T>, p: T -> bool)
    requires forall x :: x in xs ==> p(x)
    ensures Filter(xs, p) == xs
  {
    if xs != [] {
      FilterAll(xs[1..], p);
    }
  }

  /** Number of elements satisfying `p`. */
  function Count<T>(xs: seq<T>, p: T -> bool): nat {
    |Filter(xs, p)|
  }

  // ---------------------------------------------------------------------
  // Code-unit order on strings (used for names and ISO dates)
  // ---------------------------------------------------------------------

  /** `a` sorts strictly before `b` in code-unit order. */
  predicate LexLess(a: string, b: string) {
    |b| > 0 && (|a| == 0 || a[0] < b[0] || (a[0] == b[0] && LexLess(a[1..], b[1..])))
  }

  lemma {:induction false} LexLessIrreflexive(a: string)
    ensures !LexLess(a, a)
  {
    if |a| > 0 {
      LexLessIrreflexive(a[1..]);
    }
  }

  lemma {:induction false} LexLessTransitive(a: string, b: string, c: string)
    requires LexLess(a, b) && LexLess(b, c)
    ensures LexLess(a, c)
  {
    if |a| > 0 && a[0] == b[0] && b[0] == c[0] {
      LexLessTransitive(a[1..], b[1..], c[1..]);
    }
  }

  lemma {:induction false} LexLessTotal(a: string, b: string)
    requires a != b
    ensures LexLess(a, b) || LexLess(b, a)
  {
    if |a| > 0 && |b| > 0 && a[0] == b[0] {
      assert a == [a[0]] + a[1..] && b == [b[0]] + b[1..];
      LexLessTotal(a[1..], b[1..]);
    }
  }

  lemma {:induction false} LexLessAsymmetric(a: string, b: string)
    requires LexLess(a, b)
    ensures !LexLess(b, a)
  {
    if |a| > 0 && a[0] == b[0] {
      LexLessAsymmetric(a[1..], b[1..]);
    }
  }

  /** Not-less-than is transitive: the fact the insertion sort relies on. */
  lemma LexLessNegTransitive(a: string, b: string, c: string)
    requires !LexLess(b, a) && !LexLess(c, b)
    ensures !LexLess(c, a)
  {
    if a != b { LexLessTotal(a, b); }
    if b != c { LexLessTotal(b, c); }
    if a != b && b != c { LexLessTransitive(a, b, c); }
    if a == c {
      LexLessIrreflexive(a);
    } else {
      LexLessAsymmetric(a, c);
    }
  }

  // ---------------------------------------------------------------------
  // Stable insertion sort (`Array.prototype.sort` with a comparator)
  // ---------------------------------------------------------------------

  /** `lt(a, b)`: the comparator puts `a` strictly before `b`. */
  predicate SortedBy<T>(xs: seq<T>, lt: (T, T) -> bool) {
    forall i, j :: 0 <= i < j < |xs| ==> !lt(xs[j], xs[i])
  }

  /** On the elements of `xs`, `lt` is asymmetric and not-less-than is
      transitive (a strict weak order). */
  ghost predicate WeakOrderOn<T>(xs: seq<T>, lt: (T, T) -> bool) {
    && (forall a, b :: a in xs && b in xs && lt(a, b) ==> !lt(b, a))
    && (forall a, b, c :: a in xs && b in xs && c in xs && !lt(b, a) && !lt(c, b) ==> !lt(c, a))
  }

  /** Insert `x` before the first element that does not sort before it. */
  function Insert<T>(x: T, ys: seq<T>, lt: (T, T) -> bool): (r: seq<T>)
    ensures multiset(r) == multiset(ys) + multiset{x}
  {
    if ys == [] || !lt(ys[0], x) then [x] + ys
    else
      assert ys == [ys[0]] + ys[1..];
      [ys[0]] + Insert(x, ys[1..], lt)
  }

  function SortBy<T>(xs: seq<T>, lt: (T, T) -> bool): (r: seq<T>)
    ensures multiset(r) == multiset(xs)
  {
    if xs == [] then []
    else
      assert xs == [xs[0]] + xs[1..];
      Insert(xs[0], SortBy(xs[1..], lt), lt)
  }

  lemma {:induction false} InsertSorted<T>(x: T, ys: seq<T>, lt: (T, T) -> bool, all: seq<T>)
    requires x in all && forall y :: y in ys ==> y in all
    requires WeakOrderOn(all, lt)
    requires SortedBy(ys, lt)
    ensures SortedBy(Insert(x, ys, lt), lt)
  {
    if ys == [] || !lt(ys[0], x) {
      var r := [x] + ys;
      forall i, j | 0 <= i < j < |r| ensures !lt(r[j], r[i]) {
        if i == 0 {
          if j > 1 {
            assert !lt(ys[j - 1], ys[0]);
          }
        } else {
          assert r[i] == ys[i - 1] && r[j] == ys[j - 1];
        }
      }
    } else {
      InsertSorted(x, ys[1..], lt, all);
      var rest := Insert(x, ys[1..], lt);
      var r := [ys[0]] + rest;
      forall i, j | 0 <= i < j < |r| ensures !lt(r[j], r[i]) {
        assert r[j] == rest[j - 1];
        if i == 0 {
          InsertAfterHead(x, ys, lt, all, r[j]);
        } else {
          assert r[i] == rest[i - 1];
        }
      }
    }
  }

  /** Inserting past the head leaves only elements the head may precede. */
  lemma InsertAfterHead<T>(x: T, ys: seq<T>, lt: (T, T) -> bool, all: seq<T>, e: T)
    requires ys != [] && lt(ys[0], x)
    requires x in all && forall y :: y in ys ==> y in all
    requires WeakOrderOn(all, lt) && SortedBy(ys, lt)
    requires e in Insert(x, ys[1..], lt)
    ensures !lt(e, ys[0])
  {
    assert e in multiset(Insert(x, ys[1..], lt));
    if e != x {
      assert e in multiset(ys[1..]);
      var k :| 0 <= k < |ys[1..]| && ys[1..][k] == e;
      assert ys[k + 1] == e;
    } else {
      assert ys[0] in ys;
    }
  }

  /** The sort's result is ordered by the comparator (it is a permutation of
      its input by the function's own contract). */
  lemma {:induction false} SortBySorted<T>(xs: seq<T>, lt: (T, T) -> bool)
    requires WeakOrderOn(xs, lt)
    ensures SortedBy(SortBy(xs, lt), lt)
  {
    if xs != [] {
      SortBySorted(xs[1..], lt);
      var s := SortBy(xs[1..], lt);
      forall y | y in s ensures y in xs {
        assert y in multiset(s);
      }
      InsertSorted(xs[0], s, lt, xs);
    }
  }
}
