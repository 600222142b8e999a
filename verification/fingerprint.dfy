/** `getHash` in main.go and the fingerprint `isWorking` builds from a
    response: header names and cookie names, each sorted, joined into one
    canonical string, hashed with SHA-1 (FIPS 180-4) and printed as
    lowercase hex. SHA-1 is a parameter: any function to 20-byte digests. */
module Fingerprint {
  import opened Sequences
  import opened Strings
  import opened Sorting
  import opened Hex

  /** A SHA-1 digest: 20 bytes. */
  type Digest = d: seq<byte> | |d| == 20 witness seq(20, _ => 0 as byte)

  /** The string `getHash` hashes: the header names joined by commas, a
      comma, then the cookie names joined by commas. */
  function Canonical(headers: seq<string>, cookies: seq<string>): string {
    Join(headers, ",") + "," + Join(cookies, ",")
  }

  /** Splitting the canonical string at its commas gives back the header
      names followed by the cookie names, when there is at least one of each
      and no name holds a comma: the string records that joined list and
      nothing of where the headers end. */
  lemma CanonicalFields(headers: seq<string>, cookies: seq<string>)
    requires |headers| >= 1 && |cookies| >= 1
    requires forall i :: 0 <= i < |headers| ==> ',' !in headers[i]
    requires forall i :: 0 <= i < |cookies| ==> ',' !in cookies[i]
    ensures Split(Canonical(headers, cookies), ',') == headers + cookies
  {
    var all := headers + cookies;
    JoinAppend(headers, cookies, ",");
    forall i | 0 <= i < |all|
      ensures ',' !in all[i]
    {
      if i >= |headers| {
        assert all[i] == cookies[i - |headers|];
      }
    }
    SplitJoin(all, ',');
  }

  /** `getHash`: the hex rendering of the SHA-1 digest of the canonical
      string; 40 lowercase hex digits that decode back to that digest. */
  function GetHash(headers: seq<string>, cookies: seq<string>, sha1: string -> Digest): (h: string)
    ensures |h| == 40
    ensures forall i :: 0 <= i < |h| ==> IsLowerHex(h[i])
    ensures Decode(h) == sha1(Canonical(headers, cookies))
  {
    var d := sha1(Canonical(headers, cookies));
    DecodeEncode(d);
    Encode(d)
  }

  /** The fingerprint of a response as `isWorking` computes it: names are
      sorted before `getHash` sees them. */
  function Of(headers: seq<string>, cookies: seq<string>, sha1: string -> Digest): string {
    GetHash(Sort(headers), Sort(cookies), sha1)
  }

  /** Two fingerprints agree exactly when the SHA-1 digests of their
      canonical strings do: the hex step loses nothing. */
  lemma SameHashIffSameDigest(h1: seq<string>, c1: seq<string>, h2: seq<string>, c2: seq<string>,
                              sha1: string -> Digest)
    ensures GetHash(h1, c1, sha1) == GetHash(h2, c2, sha1)
        <==> sha1(Canonical(h1, c1)) == sha1(Canonical(h2, c2))
  {
    EncodeInjective(sha1(Canonical(h1, c1)), sha1(Canonical(h2, c2)));
  }

  /** The order in which the response lists its headers and cookies does not
      matter: permuted name lists give the same fingerprint. */
  lemma OfIgnoresOrder(h1: seq<string>, c1: seq<string>, h2: seq<string>, c2: seq<string>,
                       sha1: string -> Digest)
    requires multiset(h1) == multiset(h2) && multiset(c1) == multiset(c2)
    ensures Of(h1, c1, sha1) == Of(h2, c2, sha1)
  {
    SortIgnoresOrder(h1, h2);
    SortIgnoresOrder(c1, c2);
  }

  /** The canonical string is not injective: the same comma separates the
      two lists, so a name can move from the header list to the cookie list
      without changing the string, and hence the fingerprint. */
  lemma CanonicalCollides()
    ensures Canonical(["a", "b"], ["c"]) == Canonical(["a"], ["b", "c"])
    ensures Sorted(["a", "b"]) && Sorted(["b", "c"])
  {
  }

  /** Total length of a list of strings. */
  function SumLen(xs: seq<string>): nat {
    if xs == [] then 0 else |xs[0]| + SumLen(xs[1..])
  }

  lemma {:induction false} SumLenAppend(xs: seq<string>, ys: seq<string>)
    ensures SumLen(xs + ys) == SumLen(xs) + SumLen(ys)
  {
    if xs != [] {
      TailOfConcat(xs, ys);
      SumLenAppend(xs[1..], ys);
    } else {
      assert xs + ys == ys;
    }
  }

  /** The total length counts the removed element once. */
  lemma SumLenRemoveAt(ys: seq<string>, j: nat)
    requires j < |ys|
    ensures SumLen(ys) == |ys[j]| + SumLen(ys[..j] + ys[j + 1..])
  {
    assert ys == ys[..j] + [ys[j]] + ys[j + 1..];
    SumLenAppend(ys[..j] + [ys[j]], ys[j + 1..]);
    SumLenAppend(ys[..j], [ys[j]]);
    SumLenAppend(ys[..j], ys[j + 1..]);
  }

  /** Total length depends only on the elements, not on their order. */
  lemma {:induction false} SumLenPermutation(xs: seq<string>, ys: seq<string>)
    requires multiset(xs) == multiset(ys)
    ensures SumLen(xs) == SumLen(ys)
    decreases |xs|
  {
    if xs != [] {
      assert xs[0] in multiset(ys);
      var j :| 0 <= j < |ys| && ys[j] == xs[0];
      var rest := ys[..j] + ys[j + 1..];
      RemoveAt(xs, 0);
      assert xs[..0] + xs[1..] == xs[1..];
      RemoveAt(ys, j);
      SumLenPermutation(xs[1..], rest);
      SumLenRemoveAt(ys, j);
    }
  }

  /** Joining with a one-character separator adds one character between
      neighbours. */
  lemma {:induction false} JoinLength(xs: seq<string>, c: char)
    ensures |Join(xs, [c])| + (if xs == [] then 0 else 1) == SumLen(xs) + |xs|
  {
    if |xs| > 1 {
      JoinLength(xs[1..], c);
    }
  }

  /** A response with one more (non-empty) header name hashes a different
      canonical string. */
  lemma AddedHeaderChangesCanonical(headers: seq<string>, cookies: seq<string>, x: string)
    requires x != []
    ensures Canonical(Sort(headers + [x]), Sort(cookies)) != Canonical(Sort(headers), Sort(cookies))
  {
    var a := Sort(headers + [x]);
    var b := Sort(headers);
    JoinLength(a, ',');
    JoinLength(b, ',');
    SumLenPermutation(a, headers + [x]);
    SumLenPermutation(b, headers);
    SumLenAppend(headers, [x]);
    assert |a| == |multiset(a)| == |headers| + 1;
    assert |b| == |multiset(b)| == |headers|;
    assert |Join(a, ",")| > |Join(b, ",")|;
  }
}
