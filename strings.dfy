/** The Python `str` operations the server relies on, over `string`
    (Dafny's `seq<char>`, one element per Unicode code point as in Python). */
module Strings {

  /** `s.startswith(p)` */
  predicate StartsWith(s: string, p: string) {
    |p| <= |s| && s[..|p|] == p
  }

  /** `s.endswith(p)` */
  predicate EndsWith(s: string, p: string) {
    |p| <= |s| && s[|s| - |p|..] == p
  }

  /** `sub` occurs in `s` at index `i`. */
  predicate OccursAt(s: string, sub: string, i: nat) {
    i + |sub| <= |s| && s[i..i + |sub|] == sub
  }

  /** Python's `sub in s`, scanning left to right. */
  predicate Contains(s: string, sub: string)
    decreases |s|
  {
    StartsWith(s, sub) || (|s| > 0 && Contains(s[1..], sub))
  }

  /** The scan agrees with the definition "some position holds `sub`". */
  lemma {:induction false} ContainsIff(s: string, sub: string)
    ensures Contains(s, sub) <==> exists i: nat :: OccursAt(s, sub, i)
    decreases |s|
  {
    if StartsWith(s, sub) {
      assert OccursAt(s, sub, 0);
    } else if |s| == 0 {
      assert sub != [];
    } else {
      ContainsIff(s[1..], sub);
      if Contains(s[1..], sub) {
        var i: nat :| OccursAt(s[1..], sub, i);
        assert s[1..][i..i + |sub|] == s[i + 1..i + 1 + |sub|];
        assert OccursAt(s, sub, i + 1);
      } else {
        forall i: nat | 0 < i && OccursAt(s, sub, i) ensures false {
          assert s[1..][i - 1..i - 1 + |sub|] == s[i..i + |sub|];
          assert OccursAt(s[1..], sub, i - 1);
        }
        assert !OccursAt(s, sub, 0);
      }
    }
  }

  /** Whatever a slice of `s` contains, `s` contains too. */
  lemma ContainsInSlice(s: string, a: nat, b: nat, sub: string)
    requires a <= b <= |s|
    requires Contains(s[a..b], sub)
    ensures Contains(s, sub)
  {
    ContainsIff(s[a..b], sub);
    var i: nat :| OccursAt(s[a..b], sub, i);
    var t := s[a..b];
    assert t[i..i + |sub|] == sub;
    forall k | 0 <= k < |sub| ensures s[a + i + k] == sub[k] {
      assert t[i + k] == s[a + i + k];
    }
    assert s[a + i..a + i + |sub|] == sub;
    assert OccursAt(s, sub, a + i);
    ContainsIff(s, sub);
  }

  // ---------------------------------------------------------------------
  // Case folding

  /** `c.lower()` restricted to ASCII letters. */
  function LowerChar(c: char): char {
    if 'A' <= c <= 'Z' then (c as int + 32) as char else c
  }

  /** `s.lower()` restricted to ASCII letters. */
  function ToLower(s: string): (r: string)
    ensures |r| == |s|
    ensures forall i :: 0 <= i < |s| ==> r[i] == LowerChar(s[i])
  {
    seq(|s|, i requires 0 <= i < |s| => LowerChar(s[i]))
  }

  /** A case-sensitive occurrence is also a case-insensitive one. */
  lemma ContainsToLower(s: string, sub: string)
    requires Contains(s, sub)
    ensures Contains(ToLower(s), ToLower(sub))
  {
    ContainsIff(s, sub);
    var i: nat :| OccursAt(s, sub, i);
    assert ToLower(s)[i..i + |sub|] == ToLower(sub);
    assert OccursAt(ToLower(s), ToLower(sub), i);
    ContainsIff(ToLower(s), ToLower(sub));
  }

  // ---------------------------------------------------------------------
  // Whitespace and strip()

  /** `c.isspace()`: the code points Python treats as whitespace. */
  predicate IsSpace(c: char) {
    var n := c as int;
    (9 <= n <= 13) || (28 <= n <= 32) || n == 0x85 || n == 0xA0 || n == 0x1680
    || (0x2000 <= n <= 0x200A) || n == 0x2028 || n == 0x2029 || n == 0x202F
    || n == 0x205F || n == 0x3000
  }

  /** The number of whitespace characters `s` starts with. */
  function LeadingSpace(s: string): (k: nat)
    ensures k <= |s|
  {
    if |s| == 0 || !IsSpace(s[0]) then 0 else 1 + LeadingSpace(s[1..])
  }

  /** The leading run is all whitespace and stops at a non-whitespace
      character or at the end. */
  lemma {:induction false} LeadingSpaceSpec(s: string)
    ensures forall i :: 0 <= i < LeadingSpace(s) ==> IsSpace(s[i])
    ensures LeadingSpace(s) < |s| ==> !IsSpace(s[LeadingSpace(s)])
    decreases |s|
  {
    if |s| > 0 && IsSpace(s[0]) {
      LeadingSpaceSpec(s[1..]);
      assert forall i :: 1 <= i < LeadingSpace(s) ==> s[i] == s[1..][i - 1];
    }
  }

  /** The index where the whitespace that `s` ends with begins. */
  function TrailingSpaceStart(s: string): (e: nat)
    ensures e <= |s|
  {
    if |s| == 0 || !IsSpace(s[|s| - 1]) then |s| else TrailingSpaceStart(s[..|s| - 1])
  }

  /** The trailing run is all whitespace and starts after a non-whitespace
      character or at the start. */
  lemma {:induction false} TrailingSpaceSpec(s: string)
    ensures forall i :: TrailingSpaceStart(s) <= i < |s| ==> IsSpace(s[i])
    ensures 0 < TrailingSpaceStart(s) ==> !IsSpace(s[TrailingSpaceStart(s) - 1])
    decreases |s|
  {
    if |s| > 0 && IsSpace(s[|s| - 1]) {
      TrailingSpaceSpec(s[..|s| - 1]);
    }
  }

  /** Python's `s.strip()`: the leading whitespace dropped, then the
      trailing whitespace of what is left. */
  function Strip(s: string): string {
    var t := s[LeadingSpace(s)..];
    t[..TrailingSpaceStart(t)]
  }

  /** Where `s.strip()` ends inside `s`. */
  function StripEnd(s: string): (b: nat)
    ensures LeadingSpace(s) <= b <= |s|
  {
    LeadingSpace(s) + TrailingSpaceStart(s[LeadingSpace(s)..])
  }

  /** `s.strip()` is `s` without its leading and trailing whitespace: it is
      empty exactly when `s` is all whitespace, and otherwise it is the
      stretch of `s` from the first to the last non-whitespace character. */
  lemma StripSpec(s: string)
    ensures Strip(s) == [] <==> forall i :: 0 <= i < |s| ==> IsSpace(s[i])
    ensures Strip(s) != [] ==> !IsSpace(Strip(s)[0]) && !IsSpace(Strip(s)[|Strip(s)| - 1])
    ensures Strip(s) == s[LeadingSpace(s)..StripEnd(s)]
  {
    var a := LeadingSpace(s);
    var t := s[a..];
    var e := TrailingSpaceStart(t);
    LeadingSpaceSpec(s);
    TrailingSpaceSpec(t);
    assert Strip(s) == t[..e];
    if e != 0 {
      assert a < |s| && t[0] == s[a];
      assert exists i :: 0 <= i < |s| && !IsSpace(s[i]) by {
        assert !IsSpace(s[a]);
      }
    }
  }

  /** Stripping twice is stripping once. */
  lemma StripIdempotent(s: string)
    ensures Strip(Strip(s)) == Strip(s)
  {
    var r := Strip(s);
    StripSpec(s);
    if r != [] {
      assert LeadingSpace(r) == 0;
      assert r[0..] == r;
      assert TrailingSpaceStart(r) == |r|;
    }
  }

  /** A character absent from `s` is absent from `s.strip()`. */
  lemma StripKeepsOut(s: string, c: char)
    requires c !in s
    ensures c !in Strip(s)
  {
    StripSpec(s);
    var a, b := LeadingSpace(s), StripEnd(s);
    assert forall i :: 0 <= i < b - a ==> Strip(s)[i] == s[a + i];
  }

  /** What the stripped text contains, the original contains. */
  lemma StripContains(s: string, sub: string)
    requires Contains(Strip(s), sub)
    ensures Contains(s, sub)
  {
    StripSpec(s);
    ContainsInSlice(s, LeadingSpace(s), StripEnd(s), sub);
  }

  // ---------------------------------------------------------------------
  // join() and split()

  /** `sep.join(xs)` */
  function Join(xs: seq<string>, sep: string): string
  {
    if |xs| == 0 then "" else if |xs| == 1 then xs[0] else xs[0] + sep + Join(xs[1..], sep)
  }

  /** `s.split(sep)` for a one-character separator: the pieces between separators. */
  function Split(s: string, sep: char): (r: seq<string>)
    ensures |r| >= 1
  {
    if |s| == 0 then [""]
    else
      var rest := Split(s[1..], sep);
      if s[0] == sep then [""] + rest else [[s[0]] + rest[0]] + rest[1..]
  }

  /** A separator-free prefix glues onto the first piece. */
  lemma {:induction false} SplitPrefix(x: string, t: string, sep: char)
    requires sep !in x
    ensures Split(x + t, sep) == [x + Split(t, sep)[0]] + Split(t, sep)[1..]
  {
    if x != [] {
      assert (x + t)[1..] == x[1..] + t;
      SplitPrefix(x[1..], t, sep);
      assert [x[0]] + (x[1..] + Split(t, sep)[0]) == x + Split(t, sep)[0];
    } else {
      assert x + t == t;
      assert x + Split(t, sep)[0] == Split(t, sep)[0];
    }
  }

  /** Splitting a joined text on its separator gives back the pieces,
      provided no piece contains the separator. */
  lemma {:induction false} SplitJoin(xs: seq<string>, sep: char)
    requires |xs| >= 1
    requires forall i :: 0 <= i < |xs| ==> sep !in xs[i]
    ensures Split(Join(xs, [sep]), sep) == xs
  {
    if |xs| == 1 {
      SplitPrefix(xs[0], "", sep);
      assert xs[0] + "" == xs[0];
    } else {
      var rest := Join(xs[1..], [sep]);
      assert Join(xs, [sep]) == xs[0] + ([sep] + rest);
      SplitPrefix(xs[0], [sep] + rest, sep);
      assert ([sep] + rest)[1..] == rest;
      SplitJoin(xs[1..], sep);
      assert xs[0] + "" == xs[0];
      assert xs == [xs[0]] + xs[1..];
    }
  }

  // ---------------------------------------------------------------------
  // str(n)

  function DigitChar(d: nat): char
    requires d < 10
  {
    ('0' as int + d) as char
  }

  predicate IsDigit(c: char) {
    '0' <= c <= '9'
  }

  /** `str(n)` for a non-negative integer: its decimal digits. */
  function NatToString(n: nat): string
  {
    if n < 10 then [DigitChar(n)] else NatToString(n / 10) + [DigitChar(n % 10)]
  }

  /** The number a string of decimal digits denotes (Python's `int(s)`). */
  function DigitsValue(s: string): nat
    requires forall i :: 0 <= i < |s| ==> IsDigit(s[i])
  {
    if s == [] then 0
    else
      assert IsDigit(s[|s| - 1]);
      DigitsValue(s[..|s| - 1]) * 10 + (s[|s| - 1] as int - '0' as int)
  }

  /** `int(str(n)) == n`, and `str(n)` is a non-empty run of digits. */
  lemma {:induction false} NatToStringRoundTrip(n: nat)
    ensures NatToString(n) != []
    ensures forall i :: 0 <= i < |NatToString(n)| ==> IsDigit(NatToString(n)[i])
    ensures DigitsValue(NatToString(n)) == n
  {
    if n >= 10 {
      NatToStringRoundTrip(n / 10);
      var s := NatToString(n);
      assert s[..|s| - 1] == NatToString(n / 10);
    }
  }

  /** `str(n)` for any integer: a minus sign before the digits of a negative one. */
  function IntToString(n: int): string
  {
    if n < 0 then "-" + NatToString(-n) else NatToString(n)
  }

  // ---------------------------------------------------------------------
  // split(sep)[-1] and replace()

  /** Where the last piece of `s.split(sep)` starts: the scan is at `i`, and
      the current piece started at `start`; occurrences do not overlap. */
  function PieceStart(s: string, sep: string, i: nat, start: nat): (k: nat)
    requires |sep| > 0 && start <= i <= |s|
    ensures start <= k <= |s|
    decreases |s| - i
  {
    if i + |sep| > |s| then start
    else if OccursAt(s, sep, i) then PieceStart(s, sep, i + |sep|, i + |sep|)
    else PieceStart(s, sep, i + 1, start)
  }

  /** Python's `s.split(sep)[-1]`. */
  function LastPiece(s: string, sep: string): string
    requires |sep| > 0
  {
    s[PieceStart(s, sep, 0, 0)..]
  }

  /** No separator starts at or after where the last piece starts. */
  lemma {:induction false} PieceStartAfter(s: string, sep: string, i: nat, start: nat)
    requires |sep| > 0 && start <= i <= |s|
    requires forall p: nat :: start <= p < i ==> !OccursAt(s, sep, p)
    ensures forall p: nat :: PieceStart(s, sep, i, start) <= p ==> !OccursAt(s, sep, p)
    decreases |s| - i
  {
    if i + |sep| > |s| {
      forall p: nat | start <= p
        ensures !OccursAt(s, sep, p)
      {
        if i <= p {
          assert p + |sep| > |s|;
        }
      }
    } else if OccursAt(s, sep, i) {
      PieceStartAfter(s, sep, i + |sep|, i + |sep|);
    } else {
      PieceStartAfter(s, sep, i + 1, start);
    }
  }

  /** Index `k` of `s` is its start or directly follows `sep`. */
  predicate AfterSeparator(s: string, sep: string, k: nat) {
    k == 0 || (k >= |sep| && OccursAt(s, sep, k - |sep|))
  }

  /** The last piece is all of `s` or follows a separator. */
  lemma {:induction false} PieceStartBefore(s: string, sep: string, i: nat, start: nat)
    requires |sep| > 0 && start <= i <= |s|
    requires AfterSeparator(s, sep, start)
    ensures AfterSeparator(s, sep, PieceStart(s, sep, i, start))
    decreases |s| - i
  {
    if i + |sep| > |s| {
    } else if OccursAt(s, sep, i) {
      var next := i + |sep|;
      assert next - |sep| == i;
      PieceStartBefore(s, sep, next, next);
    } else {
      PieceStartBefore(s, sep, i + 1, start);
    }
  }

  /** The last piece follows the last separator: it does not contain the
      separator, and it is either all of `s` or preceded by a separator. */
  lemma LastPieceSpec(s: string, sep: string)
    requires |sep| > 0
    ensures var k := PieceStart(s, sep, 0, 0);
      LastPiece(s, sep) == s[k..] && !Contains(s[k..], sep) &&
      (k == 0 || (k >= |sep| && s[k - |sep|..k] == sep))
  {
    var k := PieceStart(s, sep, 0, 0);
    PieceStartAfter(s, sep, 0, 0);
    PieceStartBefore(s, sep, 0, 0);
    ContainsIff(s[k..], sep);
    if Contains(s[k..], sep) {
      var q: nat :| OccursAt(s[k..], sep, q);
      OccursShift(s, sep, k, q);
    }
  }

  /** An occurrence in a suffix is an occurrence in the whole string. */
  lemma OccursShift(s: string, sub: string, k: nat, q: nat)
    requires k <= |s| && OccursAt(s[k..], sub, q)
    ensures OccursAt(s, sub, k + q)
  {
    assert s[k..][q..q + |sub|] == s[k + q..k + q + |sub|];
  }

  /** `s.replace(from, to)` for single characters. */
  function ReplaceChar(s: string, from: char, to: char): (r: string)
    ensures |r| == |s|
    ensures forall i :: 0 <= i < |s| ==> r[i] == if s[i] == from then to else s[i]
  {
    seq(|s|, i requires 0 <= i < |s| => if s[i] == from then to else s[i])
  }

  // ---------------------------------------------------------------------
  // Ordering

  /** Python's `a <= b` on strings: lexicographic by code point. */
  predicate Le(a: string, b: string)
    decreases |a|
  {
    a == [] || (b != [] && (a[0] < b[0] || (a[0] == b[0] && Le(a[1..], b[1..]))))
  }

  lemma {:induction false} LeTotal(a: string, b: string)
    ensures Le(a, b) || Le(b, a)
    decreases |a|
  {
    if a != [] && b != [] && a[0] == b[0] {
      LeTotal(a[1..], b[1..]);
    }
  }

  lemma {:induction false} LeTrans(a: string, b: string, c: string)
    requires Le(a, b) && Le(b, c)
    ensures Le(a, c)
    decreases |a|
  {
    if a != [] && b != [] && c != [] && a[0] == b[0] && b[0] == c[0] {
      LeTrans(a[1..], b[1..], c[1..]);
    }
  }

  lemma {:induction false} LeAntisymmetric(a: string, b: string)
    requires Le(a, b) && Le(b, a)
    ensures a == b
    decreases |a|
  {
    if a != [] {
      LeAntisymmetric(a[1..], b[1..]);
      assert a == [a[0]] + a[1..] && b == [b[0]] + b[1..];
    }
  }
}
