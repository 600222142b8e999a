/** The handful of Go `strings` operations the prober relies on, over Dafny
    strings (`seq<char>`): `TrimSpace`, `Split` on a one-character separator,
    `SplitN(s, sep, 2)` (here `Cut`), `Join`, `HasPrefix` and `TrimPrefix`. */
module Strings {
  import opened Wrappers
  import opened Sequences

  /** Go's `unicode.IsSpace`: the Latin-1 white space characters
      (`\t \n \v \f \r`, space, U+0085, U+00A0) and the remaining
      Unicode White_Space code points. */
  predicate IsSpace(c: char) {
    var n := c as int;
    || (9 <= n <= 13) || n == 0x20 || n == 0x85 || n == 0xA0
    || n == 0x1680 || (0x2000 <= n <= 0x200A) || n == 0x2028 || n == 0x2029
    || n == 0x202F || n == 0x205F || n == 0x3000
  }

  predicate AllSpace(s: string) {
    forall i :: 0 <= i < |s| ==> IsSpace(s[i])
  }

  /** A trimmed string neither starts nor ends with white space. */
  predicate IsTrimmed(s: string) {
    s == [] || (!IsSpace(s[0]) && !IsSpace(s[|s| - 1]))
  }

  /** The number of white space characters `s` starts with. */
  function LeadingSpace(s: string): (k: nat)
    ensures k <= |s| && AllSpace(s[..k])
    ensures k == |s| || !IsSpace(s[k])
  {
    if s == [] || !IsSpace(s[0]) then 0
    else
      var k := 1 + LeadingSpace(s[1..]);
      assert forall i :: 1 <= i < k ==> s[..k][i] == s[1..][..k - 1][i - 1];
      k
  }

  /** Where the white space that `s` ends with begins. */
  function TrailingSpace(s: string): (e: nat)
    ensures e <= |s| && AllSpace(s[e..])
    ensures e == 0 || !IsSpace(s[e - 1])
  {
    if s == [] || !IsSpace(s[|s| - 1]) then |s|
    else
      var e := TrailingSpace(s[..|s| - 1]);
      assert forall i :: 0 <= i < |s| - 1 - e ==> s[e..][i] == s[..|s| - 1][e..][i];
      e
  }

  /** Go's `strings.TrimSpace`: the result neither starts nor ends with
      white space; `TrimSpaceFactor` says which part of `s` it is. */
  function TrimSpace(s: string): (r: string)
    ensures IsTrimmed(r) && |r| <= |s|
  {
    var k := LeadingSpace(s);
    var t := s[k..];
    t[..TrailingSpace(t)]
  }

  /** `s` is white space, then the trimmed string, then white space. */
  lemma TrimSpaceFactor(s: string)
    ensures var r := TrimSpace(s);
            var k := LeadingSpace(s);
            k + |r| <= |s| && r == s[k..k + |r|] && AllSpace(s[..k]) && AllSpace(s[k + |r|..])
  {
    var k := LeadingSpace(s);
    var t := s[k..];
    var e := TrailingSpace(t);
    SliceOfSuffix(s, k, e);
  }

  /** A string that is already trimmed is left as it is. */
  lemma TrimmedIsFixed(s: string)
    requires IsTrimmed(s)
    ensures TrimSpace(s) == s
  {
  }

  /** Trimming twice is trimming once. */
  lemma TrimSpaceIdempotent(s: string)
    ensures TrimSpace(TrimSpace(s)) == TrimSpace(s)
  {
    TrimmedIsFixed(TrimSpace(s));
  }

  predicate HasPrefix(s: string, prefix: string) {
    |prefix| <= |s| && s[..|prefix|] == prefix
  }

  /** A prefix made of two parts is the first part followed by the second. */
  lemma HasPrefixConcat(s: string, p: string, q: string)
    ensures HasPrefix(s, p + q) <==> HasPrefix(s, p) && HasPrefix(s[|p|..], q)
  {
    if HasPrefix(s, p + q) {
      assert s[..|p|] == (p + q)[..|p|] == p;
      assert s[|p|..][..|q|] == s[..|p + q|][|p|..] == q;
    }
    if HasPrefix(s, p) && HasPrefix(s[|p|..], q) {
      assert s[..|p + q|] == s[..|p|] + s[|p|..][..|q|];
    }
  }

  /** Go's `strings.TrimPrefix`: removes `prefix` once when present. */
  function TrimPrefix(s: string, prefix: string): string {
    if HasPrefix(s, prefix) then s[|prefix|..] else s
  }

  /** Go's `strings.Join`: no separator before the first element or after the
      last; the empty list joins to the empty string. */
  function Join(xs: seq<string>, sep: string): string {
    if |xs| == 0 then []
    else if |xs| == 1 then xs[0]
    else xs[0] + sep + Join(xs[1..], sep)
  }

  /** Go's `strings.Split` on a one-character separator: the fields between
      consecutive separators, so there is always at least one field and
      joining them back with the separator gives `s`. */
  function Split(s: string, c: char): (fs: seq<string>)
    ensures |fs| >= 1
    ensures forall i :: 0 <= i < |fs| ==> c !in fs[i]
    ensures Join(fs, [c]) == s
  {
    if s == [] then [[]]
    else
      var rest := Split(s[1..], c);
      if s[0] == c then
        var fs := [[]] + rest;
        assert fs[1..] == rest;
        fs
      else
        var fs := [[s[0]] + rest[0]] + rest[1..];
        assert fs[1..] == rest[1..];
        assert s == [s[0]] + s[1..];
        fs
  }

  /** A string without the separator is a single field. */
  lemma {:induction false} SplitNoSeparator(a: string, c: char)
    requires c !in a
    ensures Split(a, c) == [a]
  {
    if a != [] {
      SplitNoSeparator(a[1..], c);
    }
  }

  /** The first separator of `a + [c] + b` closes the first field. */
  lemma {:induction false} SplitAtFirst(a: string, c: char, b: string)
    requires c !in a
    ensures Split(a + [c] + b, c) == [a] + Split(b, c)
  {
    var s := a + [c] + b;
    if a == [] {
      assert s[1..] == b;
    } else {
      assert s[1..] == a[1..] + [c] + b;
      SplitAtFirst(a[1..], c, b);
      assert [a[0]] + a[1..] == a;
    }
  }

  /** Splitting undoes joining, for fields free of the separator: with the
      postcondition of `Split`, the two are inverse. */
  lemma {:induction false} SplitJoin(fs: seq<string>, c: char)
    requires |fs| >= 1
    requires forall i :: 0 <= i < |fs| ==> c !in fs[i]
    ensures Split(Join(fs, [c]), c) == fs
  {
    if |fs| == 1 {
      SplitNoSeparator(fs[0], c);
    } else {
      SplitJoin(fs[1..], c);
      SplitAtFirst(fs[0], c, Join(fs[1..], [c]));
      assert [fs[0]] + fs[1..] == fs;
    }
  }

  /** Joining distributes over concatenation of non-empty lists. */
  lemma {:induction false} JoinAppend(xs: seq<string>, ys: seq<string>, sep: string)
    requires |xs| >= 1 && |ys| >= 1
    ensures Join(xs + ys, sep) == Join(xs, sep) + sep + Join(ys, sep)
  {
    if |xs| == 1 {
      assert (xs + ys)[1..] == ys;
    } else {
      JoinAppend(xs[1..], ys, sep);
      assert (xs + ys)[1..] == xs[1..] + ys;
    }
  }

  /** A trailing separator adds exactly one empty field at the end. */
  lemma SplitTrailingSeparator(s: string, c: char)
    ensures Split(s + [c], c) == Split(s, c) + [[]]
  {
    var fs := Split(s, c) + [[]];
    JoinAppend(Split(s, c), [[]], [c]);
    assert Join(fs, [c]) == s + [c];
    SplitJoin(fs, c);
  }

  /** Go's `strings.SplitN(s, sep, 2)` for a one-character separator: `None`
      when `s` holds no separator (SplitN then returns a single field), else
      the text before the first separator and everything after it. */
  function Cut(s: string, c: char): (r: Option<(string, string)>)
    ensures r.None? <==> c !in s
    ensures r.Some? ==> c !in r.value.0 && s == r.value.0 + [c] + r.value.1
  {
    if s == [] then None
    else if s[0] == c then Some(([], s[1..]))
    else
      match Cut(s[1..], c)
      case None => None
      case Some(p) => Some(([s[0]] + p.0, p.1))
  }

  /** The decomposition at the first separator is unique, so `Cut` returns
      exactly the pieces any such decomposition names. */
  lemma {:induction false} CutUnique(a: string, c: char, b: string)
    requires c !in a
    ensures Cut(a + [c] + b, c) == Some((a, b))
  {
    var s := a + [c] + b;
    if a == [] {
      assert s[1..] == b;
    } else {
      assert s[1..] == a[1..] + [c] + b;
      CutUnique(a[1..], c, b);
      assert [a[0]] + a[1..] == a;
    }
  }
}
