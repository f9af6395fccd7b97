/**
  The answer to a GET_VALUES management record, as ProcessManagementRecord composes it
  from the strings that ReadParams stored.
 */
module Management {
  import opened Seqs
  import opened Protocol
  import opened NameValue
  import opened Environment

  const MAX_CONNS := "FCGI_MAX_CONNS"
  const MAX_REQS := "FCGI_MAX_REQS"
  const MPXS_CONNS := "FCGI_MPXS_CONNS"

  const ONE: byte := 49
  const ZERO: byte := 48

  /** The size of ProcessManagementRecord's response array. */
  const RESPONSE_LEN := 64

  /** strchr for '=', with the string ending at its first NUL. */
  function CutName(e: seq<byte>): (n: seq<byte>)
    ensures EQUALS !in n && 0 !in n && n <= e
    ensures |n| < |e| ==> e[|n|] == EQUALS || e[|n|] == 0
  {
    if e == [] || e[0] == 0 || e[0] == EQUALS then [] else [e[0]] + CutName(e[1..])
  }

  /** The library's value for a variable name, if it knows the name. */
  function KnownValue(name: seq<byte>): Slot {
    if name == Bytes(MAX_CONNS) then Str([ONE])
    else if name == Bytes(MAX_REQS) then Str([ONE])
    else if name == Bytes(MPXS_CONNS) then Str([ZERO])
    else Null
  }

  function Answer(e: seq<byte>): (ps: seq<Pair>)
    ensures AllEncodable(ps)
  {
    var name := CutName(e);
    if KnownValue(name) == Null then [] else [Pair(name, KnownValue(name).text)]
  }

  /** The pairs of the answer: the known names asked, in the order asked. */
  function Answers(es: seq<seq<byte>>): (ps: seq<Pair>)
    ensures AllEncodable(ps)
  {
    if es == [] then [] else Answer(es[0]) + Answers(es[1..])
  }

  /** AlignInt8. */
  function AlignInt8(n: nat): (m: nat)
    ensures m % 8 == 0 && n <= m < n + 8
  {
    (n + 7) / 8 * 8
  }

  function ValuesResult(es: seq<seq<byte>>): Record {
    var body := EncodePairs(Answers(es));
    Plain(GET_VALUES_RESULT, NULL_REQUEST_ID, body, AlignInt8(|body|) - |body|)
  }

  lemma {:induction false} AnswersSnoc(es: seq<seq<byte>>, e: seq<byte>)
    ensures Answers(es + [e]) == Answers(es) + Answer(e)
  {
    if es == [] {
      assert es + [e] == [e];
      assert [e][1..] == [];
    } else {
      assert (es + [e])[1..] == es[1..] + [e];
      AnswersSnoc(es[1..], e);
      Assoc(Answer(es[0]), Answers(es[1..]), Answer(e));
    }
  }

  lemma {:induction false} EncodePairsConcat(a: seq<Pair>, b: seq<Pair>)
    requires AllEncodable(a) && AllEncodable(b)
    ensures EncodePairs(a + b) == EncodePairs(a) + EncodePairs(b)
  {
    if a == [] {
      assert a + b == b;
    } else {
      assert (a + b)[1..] == a[1..] + b;
      EncodePairsConcat(a[1..], b);
      Assoc(EncodePair(a[0]), EncodePairs(a[1..]), EncodePairs(b));
    }
  }

  // ---------------------------------------------------------------- the answer means what was asked

  /** How often a variable is asked for. */
  function Asked(name: seq<byte>, es: seq<seq<byte>>): nat {
    if es == [] then 0 else (if CutName(es[0]) == name then 1 else 0) + Asked(name, es[1..])
  }

  lemma KnownNamesDiffer()
    ensures |Bytes(MAX_CONNS)| == 14 && |Bytes(MAX_REQS)| == 13 && |Bytes(MPXS_CONNS)| == 15
  {
  }

  lemma PieceLength(e: seq<byte>)
    ensures |EncodePairs(Answer(e))| == 17 * Asked(Bytes(MAX_CONNS), [e]) + 16 * Asked(Bytes(MAX_REQS), [e])
                                        + 18 * Asked(Bytes(MPXS_CONNS), [e])
  {
  }

  lemma {:induction false} BodyLength(es: seq<seq<byte>>)
    ensures |EncodePairs(Answers(es))|
            == 17 * Asked(Bytes(MAX_CONNS), es) + 16 * Asked(Bytes(MAX_REQS), es) + 18 * Asked(Bytes(MPXS_CONNS), es)
  {
    if es != [] {
      PieceLength(es[0]);
      var one := [es[0]];
      assert one[1..] == [];
      BodyLength(es[1..]);
      EncodePairsConcat(Answer(es[0]), Answers(es[1..]));
    }
  }

  /** The three variables are asked for seldom enough: what a peer has to see to. */
  predicate Fits(es: seq<seq<byte>>) {
    17 * Asked(Bytes(MAX_CONNS), es) + 16 * Asked(Bytes(MAX_REQS), es) + 18 * Asked(Bytes(MPXS_CONNS), es) <= 56
  }

  /**
    The whole answer, and the NUL that sprintf leaves behind it, fits the response array
    exactly when the three variables are asked for seldom enough.
   */
  lemma AnswerFits(es: seq<seq<byte>>)
    ensures var body := |EncodePairs(Answers(es))|;
            (8 + AlignInt8(body) <= 64 && 8 + body + 1 <= 64) <==> Fits(es)
  {
    hide CutName, Asked, Answers, EncodePairs;
    BodyLength(es);
  }

  lemma {:induction false} AskedConcat(name: seq<byte>, a: seq<seq<byte>>, b: seq<seq<byte>>)
    ensures Asked(name, a + b) == Asked(name, a) + Asked(name, b)
  {
    if a == [] {
      Unit(b);
    } else {
      assert (a + b)[1..] == a[1..] + b;
      AskedConcat(name, a[1..], b);
    }
  }

  /** An answer that already does not fit is not made to fit by further questions. */
  lemma FitsSoFar(es: seq<seq<byte>>, k: nat)
    requires k <= |es| && Fits(es)
    ensures Fits(es[..k])
  {
    SplitAt(es, k);
    AskedConcat(Bytes(MAX_CONNS), es[..k], es[k..]);
    AskedConcat(Bytes(MAX_REQS), es[..k], es[k..]);
    AskedConcat(Bytes(MPXS_CONNS), es[..k], es[k..]);
  }

  /** Asking each known variable at most once is always answerable. */
  lemma AskedOnceFits(es: seq<seq<byte>>)
    requires Asked(Bytes(MAX_CONNS), es) <= 1 && Asked(Bytes(MAX_REQS), es) <= 1 && Asked(Bytes(MPXS_CONNS), es) <= 1
    ensures |EncodeRecord(ValuesResult(es))| <= 64
    ensures Legal(ValuesResult(es))
  {
    AnswerFits(es);
    BodyLength(es);
  }

  /** The content of the answer decodes, with the codec of the question, to the known names asked. */
  lemma AnswerDecodes(es: seq<seq<byte>>)
    ensures Decode(ValuesResult(es).content) == Decoded(Answers(es), Complete)
  {
    DecodeEncode(Answers(es));
  }

  // ---------------------------------------------------------------- the same in numerals

  /** What the library tells of itself: one connection, one request, no multiplexing. */
  function Told(name: seq<byte>): (value: seq<byte>) {
    if name == Bytes("FCGI_MAX_CONNS") then ['1' as int]
    else if name == Bytes("FCGI_MAX_REQS") then ['1' as int]
    else if name == Bytes("FCGI_MPXS_CONNS") then ['0' as int]
    else []
  }

  /** Those of the strings' names that are among the three, with what is told of them, in order. */
  function Wanted(es: seq<seq<byte>>): seq<Pair> {
    if es == [] then []
    else
      var name := CutName(es[0]);
      (if Told(name) == [] then [] else [Pair(name, Told(name))]) + Wanted(es[1..])
  }

  lemma {:induction false} WantedAreAnswers(es: seq<seq<byte>>)
    ensures Answers(es) == Wanted(es)
  {
    hide CutName, Bytes;
    if es != [] {
      WantedAreAnswers(es[1..]);
    }
  }

  /**
    For every list of stored strings, the answer is a record of type 10 for id 0 whose content,
    padded with zeros to a multiple of eight bytes, decodes to the wanted pairs.
   */
  lemma AnswerInNumerals(es: seq<seq<byte>>)
    ensures var r := ValuesResult(es);
            && r.rtype == 10 && r.id == 0 && r.reserved == 0
            && Decode(r.content) == Decoded(Wanted(es), Complete)
            && |r.padding| < 8 && (|r.content| + |r.padding|) % 8 == 0
            && forall i :: 0 <= i < |r.padding| ==> r.padding[i] == 0
  {
    hide Decode, CutName, Bytes, EncodePairs;
    AnswerDecodes(es);
    WantedAreAnswers(es);
  }

  /** The three names asked once each: 51 bytes of content, five of padding. */
  lemma AllThreeAnswered(es: seq<seq<byte>>)
    requires |es| == 3 && CutName(es[0]) == Bytes("FCGI_MAX_CONNS") && CutName(es[1]) == Bytes("FCGI_MAX_REQS")
    requires CutName(es[2]) == Bytes("FCGI_MPXS_CONNS")
    ensures EncodeRecord(ValuesResult(es))
            == [1, 10, 0, 0, 0, 51, 5, 0]
               + ([14, 1] + Bytes("FCGI_MAX_CONNS") + [49])
               + ([13, 1] + Bytes("FCGI_MAX_REQS") + [49])
               + ([15, 1] + Bytes("FCGI_MPXS_CONNS") + [48])
               + [0, 0, 0, 0, 0]
  {
    hide CutName, Decode, EncodePairs, EncodePair, Bytes, EncodeRecord, Wanted, Answers;
    var p := Pair(Bytes("FCGI_MAX_CONNS"), [49]);
    var q := Pair(Bytes("FCGI_MAX_REQS"), [49]);
    var r := Pair(Bytes("FCGI_MPXS_CONNS"), [48]);
    WantedAreAnswers(es);
    ThreeWanted(es);
    ThreePairs(p, q, r);
    ShortPair(p.name, 49);
    ShortPair(q.name, 49);
    ShortPair(r.name, 48);
    var body := EncodePair(p) + EncodePair(q) + EncodePair(r);
    assert ValuesResult(es) == Plain(10, 0, body, 5);
    RecordBytes(ValuesResult(es));
    assert Zeros(5) == [0, 0, 0, 0, 0];
    var h: seq<byte> := [1, 10, 0, 0, 0, 51, 5, 0];
    FourPiecesJoin(h, EncodePair(p), EncodePair(q), EncodePair(r));
  }

  lemma ShortPair(name: seq<byte>, value: byte)
    requires |name| < 128
    ensures EncodePair(Pair(name, [value])) == [|name|, 1] + name + [value]
  {
  }

  lemma FourPiecesJoin(h: seq<byte>, a: seq<byte>, b: seq<byte>, c: seq<byte>)
    ensures h + (a + b + c) == h + a + b + c
  {
  }

  lemma ThreeWanted(es: seq<seq<byte>>)
    requires |es| == 3 && CutName(es[0]) == Bytes("FCGI_MAX_CONNS") && CutName(es[1]) == Bytes("FCGI_MAX_REQS")
    requires CutName(es[2]) == Bytes("FCGI_MPXS_CONNS")
    ensures Wanted(es) == [Pair(Bytes("FCGI_MAX_CONNS"), [49]), Pair(Bytes("FCGI_MAX_REQS"), [49]),
                           Pair(Bytes("FCGI_MPXS_CONNS"), [48])]
  {
    hide CutName;
    var names := [Bytes("FCGI_MAX_CONNS"), Bytes("FCGI_MAX_REQS"), Bytes("FCGI_MPXS_CONNS")];
    assert |names[0]| == 14 && |names[1]| == 13 && |names[2]| == 15;
    assert Told(names[0]) == [49] && Told(names[1]) == [49] && Told(names[2]) == [48];
    assert es[1..][1..] == es[2..] && es[2..][1..] == [];
    assert Wanted(es[2..]) == [Pair(names[2], [48])] + Wanted([]);
    assert Wanted(es[1..]) == [Pair(names[1], [49])] + Wanted(es[2..]);
    assert Wanted(es) == [Pair(names[0], [49])] + Wanted(es[1..]);
  }

  lemma ThreePairs(p: Pair, q: Pair, r: Pair)
    requires Encodable(p) && Encodable(q) && Encodable(r)
    ensures EncodePairs([p, q, r]) == EncodePair(p) + EncodePair(q) + EncodePair(r)
  {
    hide EncodePair;
    assert [p, q, r][1..] == [q, r] && [q, r][1..] == [r] && [r][1..] == [];
    assert EncodePairs([r]) == EncodePair(r) + EncodePairs([]);
    assert EncodePairs([q, r]) == EncodePair(q) + EncodePairs([r]);
    Unit(EncodePair(r));
    Assoc(EncodePair(p), EncodePair(q), EncodePair(r));
  }

  /** For pairs whose names are proper C strings without '=', those names are the ones asked. */
  lemma {:induction false} CutNameOfEntry(p: Pair)
    requires EQUALS !in p.name && 0 !in p.name
    ensures CutName(Entry(p)) == p.name
    decreases |p.name|
  {
    var e := Entry(p);
    if p.name == [] {
      assert e[0] == EQUALS;
    } else {
      var q := Pair(p.name[1..], p.value);
      CutNameOfEntry(q);
      assert e[1..] == Entry(q);
      assert [p.name[0]] + p.name[1..] == p.name;
    }
  }
}
