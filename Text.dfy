/** The Python 2 `str` operations the repository relies on, over `seq<char>`:
    `sep.join(xs)`, `s.split(c)`, `sub in s`, `s.strip()`, `s.lower()` and `str(n)`.
    `strip` and `lower` are modelled on the ASCII subset only: ASCII whitespace and ASCII
    letters. Names that arrive as `unicode` would also have Unicode whitespace and letters
    handled; README "## Left out" records that this is not modelled. */
module Text {
  import opened Common

  /** Python's truth value of an optional `str`: `None` and the empty string are false. */
  predicate Falsy(v: Option<string>) {
    v.None? || v.value == []
  }

  // ---------------------------------------------------------------- join

  /** `''.join(xs)`: the chunks one after another. */
  function Concat(xs: seq<string>): string
  {
    if |xs| == 0 then [] else xs[0] + Concat(xs[1..])
  }

  /** Concatenating two runs of chunks is concatenating their texts. */
  lemma {:induction false} ConcatAppend(a: seq<string>, b: seq<string>)
    ensures Concat(a + b) == Concat(a) + Concat(b)
    decreases |a|
  {
    if |a| > 0 {
      assert (a + b)[1..] == a[1..] + b;
      ConcatAppend(a[1..], b);
    } else {
      assert a + b == b;
    }
  }

  /** The text is empty exactly when every chunk is. */
  lemma {:induction false} ConcatEmpty(xs: seq<string>)
    ensures Concat(xs) == [] <==> forall i :: 0 <= i < |xs| ==> xs[i] == []
    decreases |xs|
  {
    if |xs| > 0 {
      ConcatEmpty(xs[1..]);
      assert forall i :: 1 <= i < |xs| ==> xs[i] == xs[1..][i - 1];
    }
  }

  /** `sep.join(xs)`: the elements of `xs` with `sep` between each neighbouring pair. */
  function Join(xs: seq<string>, sep: string): (r: string)
  {
    if |xs| == 0 then []
    else if |xs| == 1 then xs[0]
    else xs[0] + sep + Join(xs[1..], sep)
  }

  /** Joining with the empty separator is concatenation. */
  lemma {:induction false} JoinEmptySeparator(xs: seq<string>)
    ensures Join(xs, []) == Concat(xs)
  {
    if |xs| > 1 {
      JoinEmptySeparator(xs[1..]);
      assert Concat(xs[1..]) == xs[1] + Concat(xs[2..]);
    }
  }

  /** Every element is kept and the separator appears once between each neighbouring pair. */
  lemma {:induction false} JoinLength(xs: seq<string>, sep: string)
    requires |xs| > 0
    ensures |Join(xs, sep)| == |Concat(xs)| + (|xs| - 1) * |sep|
  {
    if |xs| > 1 {
      var n, k := |xs|, |sep|;
      JoinLength(xs[1..], sep);
      assert |Join(xs, sep)| == |xs[0]| + k + |Join(xs[1..], sep)|;
      assert |Concat(xs)| == |xs[0]| + |Concat(xs[1..])|;
      MulPred(n - 1, k);
    }
  }

  lemma MulPred(m: int, k: int)
    ensures (m - 1) * k + k == m * k
  {
  }

  // ---------------------------------------------------------------- split

  /** The index of the first occurrence of `c` in `s`. */
  function IndexOf(s: string, c: char): (r: Option<nat>)
    ensures r.Some? ==> r.value < |s| && s[r.value] == c && c !in s[..r.value]
    ensures r.None? <==> c !in s
  {
    var m := FirstMatch(s, (x: char) => x == c);
    if m.Some? then
      assert forall j :: 0 <= j < m.value ==> s[..m.value][j] == s[j];
      m
    else
      m
  }

  /** `s.split(c)` for a one-character separator: the fields between occurrences of `c`. */
  function Split(s: string, c: char): (r: seq<string>)
    ensures |r| >= 1
    ensures forall k :: 0 <= k < |r| ==> c !in r[k]
    decreases |s|
  {
    match IndexOf(s, c)
    case None => [s]
    case Some(i) => [s[..i]] + Split(s[i + 1..], c)
  }

  /** Splitting and joining back with the same separator gives the string again. */
  lemma {:induction false} SplitJoin(s: string, c: char)
    ensures Join(Split(s, c), [c]) == s
    decreases |s|
  {
    match IndexOf(s, c)
    case None =>
    case Some(i) =>
      var rest := Split(s[i + 1..], c);
      SplitJoin(s[i + 1..], c);
      assert Split(s, c) == [s[..i]] + rest;
      assert Join(Split(s, c), [c]) == s[..i] + [c] + Join(rest, [c]);
      assert s == s[..i] + [c] + s[i + 1..];
  }

  /** Joining fields that hold no `c` with `c` and splitting on `c` gives the fields back. */
  lemma {:induction false} JoinSplit(xs: seq<string>, c: char)
    requires |xs| >= 1 && forall k :: 0 <= k < |xs| ==> c !in xs[k]
    ensures Split(Join(xs, [c]), c) == xs
    decreases |xs|
  {
    if |xs| == 1 {
      SplitNone(xs[0], c);
    } else {
      JoinSplit(xs[1..], c);
      SplitCons(xs[0], c, Join(xs[1..], [c]));
      assert xs == [xs[0]] + xs[1..];
    }
  }

  /** A string without `c` is a single field. */
  lemma SplitNone(a: string, c: char)
    requires c !in a
    ensures Split(a, c) == [a]
  {
  }

  /** A field without `c`, then `c`, then the rest: the field comes first, the rest is split on. */
  lemma SplitCons(a: string, c: char, b: string)
    requires c !in a
    ensures Split(a + [c] + b, c) == [a] + Split(b, c)
  {
    var s := a + [c] + b;
    assert s[|a|] == c;
    assert forall j :: 0 <= j < |a| ==> s[j] == a[j];
    var m := IndexOf(s, c);
    assert m == Some(|a|);
    assert s[..|a|] == a && s[|a| + 1..] == b;
  }

  /** `s.split(c)[-1]`: the text after the last `c`, or all of `s` when there is none. */
  function LastField(s: string, c: char): (r: string)
  {
    var fields := Split(s, c);
    fields[|fields| - 1]
  }

  /** Past the first `c`, the last field is the last field of the rest. */
  lemma LastFieldSkip(s: string, c: char, i: nat)
    requires IndexOf(s, c) == Some(i)
    ensures LastField(s, c) == LastField(s[i + 1..], c)
  {
    var rest := Split(s[i + 1..], c);
    assert Split(s, c) == [s[..i]] + rest;
  }

  /** The last field is a suffix of `s` holding no `c`, and whatever comes before it ends with `c`. */
  lemma {:induction false} LastFieldIsTail(s: string, c: char)
    ensures c !in LastField(s, c)
    ensures |LastField(s, c)| <= |s| && s[|s| - |LastField(s, c)|..] == LastField(s, c)
    ensures |LastField(s, c)| < |s| ==> s[|s| - |LastField(s, c)| - 1] == c
    decreases |s|
  {
    var fields := Split(s, c);
    assert c !in fields[|fields| - 1];
    match IndexOf(s, c)
    case None =>
    case Some(i) =>
      var t := s[i + 1..];
      LastFieldIsTail(t, c);
      LastFieldSkip(s, c, i);
      var f := LastField(t, c);
      SuffixOfSuffix(s, i + 1, f);
  }

  lemma SuffixOfSuffix(s: string, m: nat, f: string)
    requires 0 < m <= |s| && |f| <= |s| - m && s[m..][|s| - m - |f|..] == f
    ensures s[|s| - |f|..] == f
    ensures |f| < |s| - m ==> s[|s| - |f| - 1] == s[m..][|s| - m - |f| - 1]
    ensures |f| == |s| - m ==> s[|s| - |f| - 1] == s[m - 1]
  {
    assert s[|s| - |f|..] == s[m..][|s| - m - |f|..];
  }

  // ---------------------------------------------------------------- substring

  /** `sub` occurs in `s` starting at index `i`. */
  predicate OccursAt(s: string, sub: string, i: nat) {
    i + |sub| <= |s| && s[i..i + |sub|] == sub
  }

  lemma SliceOfTail(s: string, i: nat, n: nat)
    requires i + 1 + n <= |s|
    ensures s[i + 1..i + 1 + n] == s[1..][i..i + n]
  {
  }

  /** `sub in s`: `sub` occurs as a contiguous piece of `s`. */
  function Contains(s: string, sub: string): (r: bool)
    ensures r <==> exists i: nat :: OccursAt(s, sub, i)
    decreases |s|
  {
    if |sub| > |s| then false
    else if sub == s[..|sub|] then
      assert OccursAt(s, sub, 0);
      true
    else
      var rest := Contains(s[1..], sub);
      assert forall i: nat :: OccursAt(s, sub, i + 1) <==> OccursAt(s[1..], sub, i) by {
        forall i: nat ensures OccursAt(s, sub, i + 1) <==> OccursAt(s[1..], sub, i) {
          if i + 1 + |sub| <= |s| {
            SliceOfTail(s, i, |sub|);
          }
        }
      }
      assert !OccursAt(s, sub, 0);
      assert (exists i: nat :: OccursAt(s, sub, i)) ==> rest by {
        if exists i: nat :: OccursAt(s, sub, i) {
          var i: nat :| OccursAt(s, sub, i);
          assert i > 0;
          assert OccursAt(s[1..], sub, i - 1);
        }
      }
      assert rest ==> OccursAt(s, sub, 1 + (var j: nat :| OccursAt(s[1..], sub, j); j));
      rest
  }

  // ---------------------------------------------------------------- strip and lower

  /** The characters Python 2's `str.strip()` removes. */
  predicate IsSpace(ch: char) {
    ch == ' ' || ch == '\t' || ch == '\n' || ch == '\r' || ch == '\U{0B}' || ch == '\U{0C}'
  }

  function StripLeft(s: string): (r: string)
    ensures |r| <= |s| && r == s[|s| - |r|..]
    ensures forall k :: 0 <= k < |s| - |r| ==> IsSpace(s[k])
    ensures |r| > 0 ==> !IsSpace(r[0])
  {
    if |s| > 0 && IsSpace(s[0]) then
      var r := StripLeft(s[1..]);
      assert s[1..][|s| - 1 - |r|..] == s[|s| - |r|..];
      assert forall k :: 1 <= k < |s| ==> s[1..][k - 1] == s[k];
      r
    else s
  }

  function StripRight(s: string): (r: string)
    ensures |r| <= |s| && r == s[..|r|]
    ensures forall k :: |r| <= k < |s| ==> IsSpace(s[k])
    ensures |r| > 0 ==> !IsSpace(r[|r| - 1])
  {
    if |s| > 0 && IsSpace(s[|s| - 1]) then StripRight(s[..|s| - 1]) else s
  }

  /** `s.strip()`: `s` without its leading and trailing whitespace. */
  function Strip(s: string): (r: string)
  {
    StripRight(StripLeft(s))
  }

  /** Strip leaves the piece of `s` starting at `i` that neither starts nor ends with whitespace,
      and what it cuts off on either side is whitespace. */
  lemma StripShape(s: string) returns (i: nat)
    ensures i + |Strip(s)| <= |s| && s[i..i + |Strip(s)|] == Strip(s)
    ensures forall k :: 0 <= k < i ==> IsSpace(s[k])
    ensures forall k :: i + |Strip(s)| <= k < |s| ==> IsSpace(s[k])
    ensures |Strip(s)| > 0 ==> !IsSpace(Strip(s)[0]) && !IsSpace(Strip(s)[|Strip(s)| - 1])
  {
    var l := StripLeft(s);
    var r := StripRight(l);
    assert r == Strip(s);
    i := |s| - |l|;
    assert l == s[i..] && r == l[..|r|];
    InfixOfSuffix(s, i, |r|);
    TrailingSpace(s, l, r);
  }

  lemma InfixOfSuffix(s: string, i: nat, n: nat)
    requires i + n <= |s|
    ensures s[i..][..n] == s[i..i + n]
  {
  }

  /** What `StripRight` cuts off `StripLeft(s)` is the whitespace at the end of `s`. */
  lemma TrailingSpace(s: string, l: string, r: string)
    requires l == StripLeft(s) && r == StripRight(l)
    ensures forall k :: |s| - |l| + |r| <= k < |s| ==> IsSpace(s[k])
  {
    var i := |s| - |l|;
    assert l == s[i..];
    forall k | i + |r| <= k < |s|
      ensures IsSpace(s[k])
    {
      assert IsSpace(l[k - i]);
    }
  }

  /** Stripping twice is stripping once. */
  lemma StripIdempotent(s: string)
    ensures Strip(Strip(s)) == Strip(s)
  {
    var r := Strip(s);
    var _ := StripShape(s);
    if |r| > 0 {
      assert StripLeft(r) == r;
      assert StripRight(r) == r;
    }
  }

  function LowerChar(ch: char): (r: char)
  {
    if 'A' <= ch <= 'Z' then (ch as int - 'A' as int + 'a' as int) as char else ch
  }

  /** `s.lower()` on ASCII. */
  function Lower(s: string): (r: string)
    ensures |r| == |s|
  {
    seq(|s|, k requires 0 <= k < |s| => LowerChar(s[k]))
  }

  /** Two characters are the same up to ASCII letter case: equal, or one is an upper-case
      letter and the other the lower-case letter 32 code points above it. */
  predicate SameLetterUpToCase(a: char, b: char) {
    a == b
    || ('A' <= a <= 'Z' && b as int == a as int + 32)
    || ('A' <= b <= 'Z' && a as int == b as int + 32)
  }

  /** Two strings that differ only in the case of ASCII letters. */
  predicate SameUpToCase(a: string, b: string) {
    |a| == |b| && forall k :: 0 <= k < |a| ==> SameLetterUpToCase(a[k], b[k])
  }

  /** `a.lower() == b.lower()` holds exactly when the two differ only in ASCII letter case. */
  lemma LowerSameUpToCase(a: string, b: string)
    ensures Lower(a) == Lower(b) <==> SameUpToCase(a, b)
  {
    if Lower(a) == Lower(b) {
      forall k | 0 <= k < |a|
        ensures SameLetterUpToCase(a[k], b[k])
      {
        assert Lower(a)[k] == Lower(b)[k];
      }
    }
    if SameUpToCase(a, b) {
      assert forall k :: 0 <= k < |a| ==> Lower(a)[k] == Lower(b)[k];
    }
  }

  /** Lower-casing leaves no upper-case letter and is idempotent. */
  lemma LowerNormal(s: string)
    ensures forall k :: 0 <= k < |s| ==> !('A' <= Lower(s)[k] <= 'Z')
    ensures Lower(Lower(s)) == Lower(s)
  {
  }

  // ---------------------------------------------------------------- str(int)

  function DigitChar(d: nat): (r: char)
    requires d < 10
  {
    ('0' as int + d) as char
  }

  function DigitValue(ch: char): int
  {
    ch as int - '0' as int
  }

  /** Decimal digits of a natural number, most significant first, without leading zeros. */
  function NatToString(n: nat): (r: string)
    ensures |r| >= 1
    ensures forall k :: 0 <= k < |r| ==> '0' <= r[k] <= '9'
    ensures |r| > 1 ==> r[0] != '0'
  {
    if n < 10 then [DigitChar(n)] else NatToString(n / 10) + [DigitChar(n % 10)]
  }

  /** The number a string of decimal digits denotes. */
  function DecimalValue(s: string): int
  {
    if |s| == 0 then 0 else 10 * DecimalValue(s[..|s| - 1]) + DigitValue(s[|s| - 1])
  }

  /** Reading back the digits of `n` gives `n`. */
  lemma {:induction false} NatToStringRoundTrip(n: nat)
    ensures DecimalValue(NatToString(n)) == n
  {
    if n >= 10 {
      NatToStringRoundTrip(n / 10);
      var s := NatToString(n);
      assert s[..|s| - 1] == NatToString(n / 10);
    }
  }

  /** `str(n)` for a Python int: a minus sign before the digits of a negative number. */
  function IntToString(n: int): (r: string)
    ensures |r| >= 1 && (r[0] == '-' <==> n < 0)
    ensures forall k :: 0 < k < |r| ==> '0' <= r[k] <= '9'
  {
    if n < 0 then "-" + NatToString(-n) else NatToString(n)
  }

  /** Distinct integers give distinct strings, so `str` loses nothing. */
  lemma IntToStringInjective(a: int, b: int)
    requires IntToString(a) == IntToString(b)
    ensures a == b
  {
    var sa := IntToString(a);
    if a < 0 && b < 0 {
      NatEqual(-a, -b, sa[1..]);
    } else if a >= 0 && b >= 0 {
      NatEqual(a, b, sa);
    }
  }

  lemma NatEqual(m: nat, n: nat, s: string)
    requires NatToString(m) == s && NatToString(n) == s
    ensures m == n
  {
    NatToStringRoundTrip(m);
    NatToStringRoundTrip(n);
  }
}
