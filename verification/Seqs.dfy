/** Small facts about sequences that the other modules' proofs call by name. */
module Seqs {

  function Min(a: int, b: int): int {
    if a <= b then a else b
  }

  function Max(a: int, b: int): int {
    if a >= b then a else b
  }

  lemma Unit<T>(s: seq<T>)
    ensures s + [] == s && [] + s == s
  {
  }

  lemma SplitAt<T>(s: seq<T>, k: nat)
    requires k <= |s|
    ensures s == s[..k] + s[k..]
  {
  }

  lemma Assoc<T>(a: seq<T>, b: seq<T>, c: seq<T>)
    ensures a + b + c == a + (b + c)
  {
  }

  /** Cutting a concatenation at its seam. */
  lemma Seam<T>(a: seq<T>, b: seq<T>)
    ensures (a + b)[..|a|] == a && (a + b)[|a|..] == b
  {
  }

  lemma FourPieces<T>(a: seq<T>, b: seq<T>, c: seq<T>, d: seq<T>)
    ensures var e := a + b + c + d;
            && e[..|a|] == a
            && e[|a|..] == b + c + d
            && e[|a|..|a| + |b|] == b
            && e[|a| + |b|..|a| + |b| + |c|] == c
            && e[|a| + |b| + |c|..] == d
            && (|a| > 0 ==> e[|a| - 1] == a[|a| - 1])
  {
  }

  lemma HeadTail<T>(s: seq<T>, t: seq<T>)
    requires s != []
    ensures [s[0]] + (s[1..] + t) == s + t
  {
  }

  lemma TakeNext<T>(s: seq<T>, k: nat)
    requires k < |s|
    ensures s[..k] + [s[k]] == s[..k + 1]
  {
  }

  lemma DropNext<T>(s: seq<T>, k: nat)
    requires k < |s|
    ensures s[k..][0] == s[k] && s[k..][1..] == s[k + 1..]
  {
  }

  lemma TakeMore<T>(s: seq<T>, k: nat, n: nat)
    requires k + n <= |s|
    ensures s[k..][..n] == s[k..k + n]
    ensures s[k..][n..] == s[k + n..]
    ensures s[..k] + s[k..k + n] == s[..k + n]
  {
  }

  lemma PrefixBeyond<T>(a: seq<T>, b: seq<T>, k: nat)
    requires |a| <= k <= |a| + |b|
    ensures (a + b)[..k] == a + b[..k - |a|]
  {
  }

  lemma SuffixOf<T>(a: seq<T>, b: seq<T>)
    requires a <= b
    ensures b == a + b[|a|..]
  {
  }

  lemma SuffixJoin<T>(a: seq<T>, b: seq<T>, c: seq<T>)
    requires a <= b <= c
    ensures a <= c && c[|a|..] == b[|a|..] + c[|b|..]
  {
  }

  function Flatten<T>(chunks: seq<seq<T>>): seq<T> {
    if chunks == [] then [] else Flatten(chunks[..|chunks| - 1]) + chunks[|chunks| - 1]
  }

  lemma FlattenSnoc<T>(chunks: seq<seq<T>>, c: seq<T>)
    ensures Flatten(chunks + [c]) == Flatten(chunks) + c
    ensures Flatten(chunks) + [] == Flatten(chunks)
  {
  }
}
