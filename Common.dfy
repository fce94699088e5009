/** Result shapes shared by the modules of this model, and the first-match search that the
    repository's helpers all write as `for x in xs: if p(x): return x`. */
module Common {

  datatype Option<+T> = None | Some(value: T)

  /** A call that either returns a value or raises; `E` names the exception raised. */
  datatype Result<+T, +E> = Ok(value: T) | Err(error: E)

  /** The value held by `o`, as a list of at most one element. */
  function AsList<T>(o: Option<T>): seq<T>
  {
    if o.Some? then [o.value] else []
  }

  /** The index of the first element of `xs` satisfying `p`, or None when there is none. */
  function FirstMatch<T>(xs: seq<T>, p: T -> bool): (r: Option<nat>)
    ensures r.Some? ==> r.value < |xs| && p(xs[r.value])
    ensures r.Some? ==> forall j :: 0 <= j < r.value ==> !p(xs[j])
    ensures r.None? <==> forall j :: 0 <= j < |xs| ==> !p(xs[j])
  {
    if |xs| == 0 then None
    else if p(xs[0]) then Some(0)
    else
      match FirstMatch(xs[1..], p)
      case None => None
      case Some(k) => Some(k + 1)
  }

  /** The elements of `xs` satisfying `p`, in their order in `xs`. */
  function Filter<T>(xs: seq<T>, p: T -> bool): (r: seq<T>)
    ensures |r| <= |xs|
    ensures forall k :: 0 <= k < |r| ==> p(r[k]) && r[k] in xs
    ensures forall x :: x in xs && p(x) ==> x in r
  {
    if |xs| == 0 then []
    else if p(xs[0]) then [xs[0]] + Filter(xs[1..], p)
    else Filter(xs[1..], p)
  }

  /** Filtering one more element at the end keeps the earlier result and adds that element
      when it passes. */
  lemma {:induction false} FilterSnoc<T>(xs: seq<T>, x: T, p: T -> bool)
    ensures Filter(xs + [x], p) == Filter(xs, p) + (if p(x) then [x] else [])
    decreases |xs|
  {
    var ys := xs + [x];
    var last := if p(x) then [x] else [];
    if |xs| == 0 {
      assert ys[1..] == [];
    } else {
      assert ys[0] == xs[0] && ys[1..] == xs[1..] + [x];
      FilterSnoc(xs[1..], x, p);
      var head := if p(xs[0]) then [xs[0]] else [];
      assert Filter(ys, p) == head + (Filter(xs[1..], p) + last);
      assert Filter(xs, p) == head + Filter(xs[1..], p);
      AppendAssoc(head, Filter(xs[1..], p), last);
    }
  }

  /** Extending a prefix of `s` by one element, after a fixed head `a`. */
  lemma PrefixSnoc<T>(a: seq<T>, s: seq<T>, j: nat)
    requires j < |s|
    ensures a + s[..j + 1] == (a + s[..j]) + [s[j]]
  {
    assert s[..j + 1] == s[..j] + [s[j]];
  }

  /** `a + s` cut after its element at `j` of `s`. */
  lemma CutAfter<T>(a: seq<T>, s: seq<T>, j: nat)
    requires j < |s|
    ensures a + s == (a + s[..j + 1]) + s[j + 1..]
  {
    assert s == s[..j + 1] + s[j + 1..];
  }

  /** Dropping the last element of a prefix of `s`. */
  lemma PrefixShrink<T>(s: seq<T>, k: nat)
    requires 0 < k <= |s|
    ensures s[..k][..k - 1] == s[..k - 1] && s[..k][k - 1] == s[k - 1]
  {
  }

  lemma AppendAssoc<T>(a: seq<T>, b: seq<T>, c: seq<T>)
    ensures (a + b) + c == a + (b + c)
  {
  }
}
