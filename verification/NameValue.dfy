/**
  The name-value pair encoding of PARAMS and GET_VALUES contents: the bridge's encoder
  and, as a function of the whole content, what ReadParams makes of it.
 */
module NameValue {
  import opened Seqs
  import opened Protocol

  const INT_MAX := 0x7fff_ffff

  datatype Pair = Pair(name: seq<byte>, value: seq<byte>)

  // ---------------------------------------------------------------- encoding

  function EncodeLength(n: nat): (w: seq<byte>)
    requires n <= INT_MAX
    ensures |w| == if n < 0x80 then 1 else 4
  {
    if n < 0x80 then [n]
    else [n / 0x100_0000 + 0x80, (n / 0x1_0000) % 256, (n / 0x100) % 256, n % 256]
  }

  /** ReadParams refuses a length of exactly INT_MAX, so a sender must stay below it. */
  predicate Encodable(p: Pair) {
    |p.name| < INT_MAX && |p.value| < INT_MAX
  }

  predicate AllEncodable(ps: seq<Pair>) {
    forall i :: 0 <= i < |ps| ==> Encodable(ps[i])
  }

  function EncodePair(p: Pair): seq<byte>
    requires Encodable(p)
  {
    EncodeLength(|p.name|) + EncodeLength(|p.value|) + p.name + p.value
  }

  function EncodePairs(ps: seq<Pair>): (w: seq<byte>)
    requires AllEncodable(ps)
  {
    if ps == [] then [] else EncodePair(ps[0]) + EncodePairs(ps[1..])
  }

  /** FCGIUtil_BuildNameValueHeader: the two lengths, written byte by byte through a pointer. */
  method BuildNameValueHeader(nameLen: nat, valueLen: nat, headerBuff: array<byte>) returns (headerLen: nat)
    requires nameLen <= INT_MAX && valueLen <= INT_MAX
    requires headerBuff.Length >= 8
    modifies headerBuff
    ensures headerLen <= 8
    ensures headerBuff[..headerLen] == EncodeLength(nameLen) + EncodeLength(valueLen)
    ensures headerBuff[headerLen..] == old(headerBuff[..])[headerLen..]
  {
    headerLen := PutLength(nameLen, headerBuff, 0);
    headerLen := PutLength(valueLen, headerBuff, headerLen);
  }

  method PutLength(n: nat, buf: array<byte>, at: nat) returns (next: nat)
    requires n <= INT_MAX && at <= 4 && buf.Length >= 8
    modifies buf
    ensures next == at + |EncodeLength(n)|
    ensures buf[..next] == old(buf[..at]) + EncodeLength(n)
    ensures buf[next..] == old(buf[..])[next..]
  {
    if n < 0x80 {
      buf[at] := n;
      next := at + 1;
    } else {
      buf[at] := n / 0x100_0000 + 0x80;
      buf[at + 1] := (n / 0x1_0000) % 256;
      buf[at + 2] := (n / 0x100) % 256;
      buf[at + 3] := n % 256;
      next := at + 4;
    }
  }

  // ---------------------------------------------------------------- decoding

  datatype Length = Got(n: nat, rest: seq<byte>) | Short | TooBig

  /** One length: its first byte, then three more when the top bit is set. */
  function ReadLength(w: seq<byte>): (l: Length)
    ensures l.Got? ==> l.n < INT_MAX && |l.rest| < |w|
  {
    if w == [] then Short
    else if w[0] < 0x80 then Got(w[0], w[1..])
    else if |w| < 4 then Short
    else
      var n := LongLength(w[0], w[1], w[2], w[3]);
      if n >= INT_MAX then TooBig else Got(n, w[4..])
  }

  function LongLength(b3: byte, b2: byte, b1: byte, b0: byte): (n: nat)
    requires b3 >= 0x80
    ensures n <= INT_MAX
  {
    Word(Word(Word(b3 - 0x80, b2), b1), b0)
  }

  /** Why reading stopped: at a pair boundary, inside a pair, or on a length of INT_MAX. */
  datatype Outcome = Complete | Truncated | BadLength

  datatype First = One(pair: Pair, rest: seq<byte>) | None(outcome: Outcome)

  function DecodeFirst(w: seq<byte>): (f: First)
    ensures f.One? ==> Encodable(f.pair) && |f.rest| < |w|
  {
    if w == [] then None(Complete)
    else
      match ReadLength(w)
      case TooBig => None(BadLength)
      case Short => None(Truncated)
      case Got(nameLen, w1) =>
        match ReadLength(w1)
        case TooBig => None(BadLength)
        case Short => None(Truncated)
        case Got(valueLen, w2) =>
          if |w2| < nameLen + valueLen then None(Truncated)
          else One(Pair(w2[..nameLen], w2[nameLen..nameLen + valueLen]), w2[nameLen + valueLen..])
  }

  datatype Decoded = Decoded(pairs: seq<Pair>, outcome: Outcome)

  function Prepend(p: Pair, d: Decoded): Decoded {
    Decoded([p] + d.pairs, d.outcome)
  }

  /** Everything ReadParams stores from the content `w`, and how it ends. */
  function Decode(w: seq<byte>): (d: Decoded)
    ensures AllEncodable(d.pairs)
    decreases |w|
  {
    match DecodeFirst(w)
    case None(o) => Decoded([], o)
    case One(p, rest) => Prepend(p, Decode(rest))
  }

  // ---------------------------------------------------------------- round trips

  lemma LengthRoundTrip(n: nat, w: seq<byte>)
    requires n < INT_MAX
    ensures ReadLength(EncodeLength(n) + w) == Got(n, w)
  {
    var e := EncodeLength(n) + w;
    assert e[|EncodeLength(n)|..] == w;
    if n >= 0x80 {
      var q1, q2, q3 := n / 0x100, n / 0x1_0000, n / 0x100_0000;
      assert q2 == q1 / 0x100 && q3 == q2 / 0x100 && q3 < 128;
      assert n == Word(Word(Word(q3, q2 % 256), q1 % 256), n % 256);
    }
  }

  lemma PairRoundTrip(p: Pair, w: seq<byte>)
    requires Encodable(p)
    ensures DecodeFirst(EncodePair(p) + w) == One(p, w)
  {
    var b := p.name + p.value + w;
    var l := EncodeLength(|p.value|) + b;
    LengthRoundTrip(|p.name|, l);
    LengthRoundTrip(|p.value|, b);
    Regroup(EncodeLength(|p.name|), EncodeLength(|p.value|), p.name, p.value, w);
    BodyParts(p.name, p.value, w);
  }

  lemma Regroup(a: seq<byte>, b: seq<byte>, c: seq<byte>, d: seq<byte>, w: seq<byte>)
    ensures a + b + c + d + w == a + (b + (c + d + w))
  {
  }

  lemma BodyParts(c: seq<byte>, d: seq<byte>, w: seq<byte>)
    ensures var b := c + d + w; b[..|c|] == c && b[|c|..|c| + |d|] == d && b[|c| + |d|..] == w
  {
  }

  lemma {:induction false} DecodeEncode(ps: seq<Pair>)
    requires AllEncodable(ps)
    ensures Decode(EncodePairs(ps)) == Decoded(ps, Complete)
  {
    DecodeEncodeThen(ps, []);
    assert EncodePairs(ps) + [] == EncodePairs(ps);
    assert ps + [] == ps;
  }

  /** Pairs decode the same whatever follows them; so a cut loses only what follows. */
  lemma {:induction false} DecodeEncodeThen(ps: seq<Pair>, w: seq<byte>)
    requires AllEncodable(ps)
    ensures Decode(EncodePairs(ps) + w) == Decoded(ps + Decode(w).pairs, Decode(w).outcome)
  {
    var d := Decode(w);
    if ps == [] {
      Unit(w);
      assert ps + d.pairs == d.pairs;
    } else {
      DecodeEncodeThen(ps[1..], w);
      EncodePairsThen(ps, w);
      DecodePair(ps[0], EncodePairs(ps[1..]) + w);
      HeadTail(ps, d.pairs);
    }
  }

  lemma EncodePairsThen(ps: seq<Pair>, w: seq<byte>)
    requires AllEncodable(ps) && ps != []
    ensures EncodePairs(ps) + w == EncodePair(ps[0]) + (EncodePairs(ps[1..]) + w)
  {
  }

  lemma DecodePair(p: Pair, t: seq<byte>)
    requires Encodable(p)
    ensures Decode(EncodePair(p) + t) == Prepend(p, Decode(t))
  {
    PairRoundTrip(p, t);
  }

  /** A pair cut short anywhere is not decoded, and reading stops there. */
  lemma CutPair(p: Pair, k: nat)
    requires Encodable(p)
    requires 0 < k < |EncodePair(p)|
    ensures DecodeFirst(EncodePair(p)[..k]) == None(Truncated)
  {
    var a, b := EncodeLength(|p.name|), EncodeLength(|p.value|);
    var w := EncodePair(p)[..k];
    if k < |a| {
      assert w == a[..k];
    } else {
      var w1 := w[|a|..];
      PrefixParts(a, b, p.name + p.value, k);
      Assoc(a + b, p.name, p.value);
      LengthRoundTrip(|p.name|, w1);
      if |b| <= |w1| {
        LengthRoundTrip(|p.value|, w1[|b|..]);
      }
    }
  }

  lemma PrefixParts(a: seq<byte>, b: seq<byte>, c: seq<byte>, k: nat)
    requires |a| <= k <= |a + b + c|
    ensures var w := (a + b + c)[..k];
            && w == a + w[|a|..]
            && (if |b| <= k - |a| then w[|a|..] == b + w[|a|..][|b|..] else w[|a|..] == b[..k - |a|])
  {
  }

  /** On a mid-pair truncation exactly the complete earlier pairs are stored. */
  lemma TruncationKeepsEarlierPairs(ps: seq<Pair>, p: Pair, k: nat)
    requires AllEncodable(ps) && Encodable(p)
    requires 0 < k < |EncodePair(p)|
    ensures Decode(EncodePairs(ps) + EncodePair(p)[..k]) == Decoded(ps, Truncated)
  {
    CutPair(p, k);
    var t := EncodePair(p)[..k];
    DecodeEncodeThen(ps, t);
    assert Decode(t) == Decoded([], Truncated);
    assert ps + [] == ps;
  }

  lemma ReadLengthOfPrefix(w: seq<byte>, k: nat)
    requires k <= |w|
    ensures var l, m := ReadLength(w), ReadLength(w[..k]);
            match m {
              case Short => true
              case TooBig => l == TooBig
              case Got(n, rest) => l.Got? && l.n == n && rest <= l.rest
            }
  {
  }

  /** Cutting bytes off never makes a length too big that was not. */
  lemma {:induction false} PrefixKeepsLengths(w: seq<byte>, k: nat)
    requires k <= |w| && Decode(w).outcome != BadLength
    ensures Decode(w[..k]).outcome != BadLength
    decreases |w|
  {
    hide ReadLength;
    var v := w[..k];
    ReadLengthOfPrefix(w, k);
    if v != [] && ReadLength(v).Got? {
      var w1, v1 := ReadLength(w).rest, ReadLength(v).rest;
      assert v1 == w1[..|v1|];
      ReadLengthOfPrefix(w1, |v1|);
      if DecodeFirst(v).One? {
        var w2, v2 := DecodeFirst(w).rest, DecodeFirst(v).rest;
        assert v2 == w2[..|v2|];
        PrefixKeepsLengths(w2, |v2|);
      }
    }
  }

  lemma ReencodeLength(w: seq<byte>)
    requires ReadLength(w).Got?
    ensures |EncodeLength(ReadLength(w).n)| + |ReadLength(w).rest| <= |w|
  {
  }

  /** Whatever was accepted re-encodes no longer than it came, and to the same pairs. */
  lemma {:induction false} ReencodeNeverLonger(w: seq<byte>)
    ensures |EncodePairs(Decode(w).pairs)| <= |w|
    ensures Decode(EncodePairs(Decode(w).pairs)) == Decoded(Decode(w).pairs, Complete)
    decreases |w|
  {
    DecodeEncode(Decode(w).pairs);
    if DecodeFirst(w).One? {
      ReencodeLength(w);
      ReencodeLength(ReadLength(w).rest);
      ReencodeNeverLonger(DecodeFirst(w).rest);
      assert Decode(w).pairs[1..] == Decode(DecodeFirst(w).rest).pairs;
    }
  }

  // ---------------------------------------------------------------- lengths that no sender here makes

  /** The receiver takes a long form for any length, however small, but 2^31 - 1. */
  lemma LengthForms(b: byte, w: seq<byte>)
    ensures b < 128 ==> ReadLength([b] + w) == Got(b, w)
    ensures b >= 128 ==>
              ReadLength([b] + w)
              == if |w| < 3 then Short
                 else
                   var b3: int, b2: int, b1: int, b0: int := b, w[0], w[1], w[2];
                   var n := (b3 - 128) * 16777216 + b2 * 65536 + b1 * 256 + b0;
                   if n == 2147483647 then TooBig else Got(n, w[3..])
  {
    var e := [b] + w;
    assert e[1..] == w;
    assert |w| >= 3 ==> e[4..] == w[3..];
  }

  /** Whatever forms its lengths have, a pair is what they say of the bytes behind them, if those are there. */
  lemma PairOfLengths(w: seq<byte>, n: nat, w1: seq<byte>, v: nat, w2: seq<byte>)
    requires ReadLength(w) == Got(n, w1) && ReadLength(w1) == Got(v, w2)
    ensures DecodeFirst(w)
            == if |w2| < n + v then None(Truncated) else One(Pair(w2[..n], w2[n..n + v]), w2[n + v..])
  {
  }
}
