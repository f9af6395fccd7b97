/**
  The input stream in terms of records: which records a reader's stream is made of, which
  it answers, and exactly which irregular records it does not tolerate.
 */
module RecordStream {
  import opened Seqs
  import opened Protocol
  import opened NameValue
  import opened Environment
  import opened Management
  import opened ReaderSpec

  /** A reader in the middle of its request, with no error recorded. */
  predicate Listening(ctx: Context) {
    ctx.begun && ctx.errno == 0 && ctx.id > 0
  }

  predicate Mine(ctx: Context, r: Record) {
    r.rtype != BEGIN_REQUEST && r.id == ctx.id && r.rtype == ctx.rtype
  }

  /**
    The records a peer may send before the end of the stream: extra BEGIN_REQUESTs, variable
    queries whose answer fits, unknown management records without content, other requests' records with
    content, and content for this stream.
   */
  predicate Regular(ctx: Context, r: Record) {
    && Legal(r)
    && if r.rtype == BEGIN_REQUEST then r.id != 0 && |r.content| == 8
       else if r.id == NULL_REQUEST_ID then
         if r.rtype == GET_VALUES then Decode(r.content).outcome == Complete && Fits(Entries(Decode(r.content).pairs))
         else r.content == []
       else r.content != [] && (r.id == ctx.id ==> r.rtype == ctx.rtype)
  }

  predicate AllRegular(ctx: Context, rs: seq<Record>) {
    forall i :: 0 <= i < |rs| ==> Regular(ctx, rs[i])
  }

  /** The record that ends the stream. */
  predicate Final(ctx: Context, r: Record) {
    Legal(r) && Mine(ctx, r) && r.content == []
  }

  /** The contents of this stream's records, in order. */
  function Contents(ctx: Context, rs: seq<Record>): seq<byte> {
    if rs == [] then []
    else (if Mine(ctx, rs[0]) then rs[0].content else []) + Contents(ctx, rs[1..])
  }

  /** The answer one record gets, if any. */
  function Due(r: Record): seq<Record> {
    if r.rtype == BEGIN_REQUEST then [EndRequest(r.id, 0, CANT_MPX_CONN)]
    else if r.id != NULL_REQUEST_ID then []
    else if r.rtype == GET_VALUES then [ValuesResult(Entries(Decode(r.content).pairs))]
    else [UnknownType(r.rtype)]
  }

  function AllDue(rs: seq<Record>): seq<Record> {
    if rs == [] then [] else Due(rs[0]) + AllDue(rs[1..])
  }

  // ---------------------------------------------------------------- one record

  /** A record's header is read and dispatched on. */
  lemma AtRecord(ctx: Context, skip: bool, r: Record, w: seq<byte>)
    requires Legal(r)
    ensures Future(ctx, 0, 0, skip, EncodeRecord(r) + w)
            == AfterHeader(ctx, skip, Header(VERSION_1, r.rtype, r.id, |r.content|, |r.padding|),
                           r.content + r.padding + w)
  {
    hide EncodeRecord, AfterHeader, ParseHeader;
    RecordParts(r, w);
  }

  /** Content, then padding, of which `w` is what remains. */
  lemma ThroughRecord(ctx: Context, skip: bool, c: seq<byte>, p: seq<byte>, w: seq<byte>)
    ensures Future(ctx, |c|, |p|, skip, c + p + w)
            == Emit(if skip then [] else c, Future(ctx, 0, 0, skip && c == [], w))
  {
    hide AfterHeader;
    var t := c + p + w;
    Assoc(c, p, w);
    Seam(c, p + w);
    Seam(p, w);
    FuturePadding(ctx, |p|, skip && c == [], p + w, |p|);
    if c != [] {
      FutureContent(ctx, |c|, |p|, skip, t, |c|);
    } else {
      Unit(p + w);
      EmitNothing(Future(ctx, 0, |p|, skip, p + w));
    }
  }

  /** The same under eorStop; an unpadded record needs a byte after it to end on. */
  lemma ThroughNested(code: int, c: seq<byte>, p: seq<byte>, w: seq<byte>)
    requires p != [] || w != []
    ensures Nested(code, |c|, |p|, false, c + p + w) == Run(c, [], Eof(w))
  {
  }

  predicate IsQuery(r: Record) {
    r.rtype == GET_VALUES && r.id == NULL_REQUEST_ID
  }

  /** A query is answered only once the byte after it, or its padding, has arrived. */
  predicate NeedsMore(r: Record) {
    IsQuery(r) && r.padding == []
  }

  /** A regular record in front of anything else: its due is written, its content delivered if it is ours. */
  lemma RegularRecord(ctx: Context, r: Record, w: seq<byte>)
    requires Listening(ctx) && Regular(ctx, r) && (w != [] || !NeedsMore(r))
    ensures Future(ctx, 0, 0, false, EncodeRecord(r) + w)
            == Replies(Due(r), Emit(if Mine(ctx, r) then r.content else [], Future(ctx, 0, 0, false, w)))
  {
    hide EncodeRecord, Future, Nested, Decode, ValuesResult, UnknownType, EndRequest, Fits;
    AtRecord(ctx, false, r, w);
    ThroughRecord(ctx, true, r.content, r.padding, w);
    ThroughRecord(ctx, false, r.content, r.padding, w);
    if r.padding != [] || w != [] {
      ThroughNested(EofErrno(ctx), r.content, r.padding, w);
    }
    var f := Future(ctx, 0, 0, false, w);
    EmitNothing(f);
    RepliesNothing(f);
    RepliesNothing(Emit(r.content, f));
  }

  lemma FinalRecord(ctx: Context, r: Record, w: seq<byte>)
    requires Listening(ctx) && Final(ctx, r)
    ensures Future(ctx, 0, 0, false, EncodeRecord(r) + w) == Run([], [], Eof(r.padding + w))
  {
    hide EncodeRecord, Future;
    AtRecord(ctx, false, r, w);
    Unit(r.padding);
  }

  // ---------------------------------------------------------------- a whole stream

  /**
    The stream is the concatenated contents of its own records up to the first empty one, and
    each extra BEGIN_REQUEST, query and unknown management record gets its answer, in order.
    The right-hand side knows nothing of buffers or reads.
   */
  lemma {:induction false} StreamOfRecords(ctx: Context, rs: seq<Record>, e: Record, w: seq<byte>)
    requires Listening(ctx) && AllRegular(ctx, rs) && Final(ctx, e)
    ensures Future(ctx, 0, 0, false, EncodeAll(rs) + (EncodeRecord(e) + w))
            == Run(Contents(ctx, rs), AllDue(rs), Eof(e.padding + w))
  {
    hide EncodeRecord, Future, Regular, Due, Mine;
    var t := EncodeRecord(e) + w;
    if rs == [] {
      Unit(t);
      FinalRecord(ctx, e, w);
    } else {
      var t' := EncodeAll(rs[1..]) + t;
      Assoc(EncodeRecord(rs[0]), EncodeAll(rs[1..]), t);
      RegularRecord(ctx, rs[0], t');
      StreamOfRecords(ctx, rs[1..], e, w);
    }
  }

  // ---------------------------------------------------------------- a stream cut short

  /** With `k` bytes arrived from its start on, the record's answer, if it has one due, has been written. */
  predicate Answered(r: Record, k: nat) {
    k >= HEADER_LEN && (IsQuery(r) ==> k > |EncodeRecord(r)| || (k == |EncodeRecord(r)| && r.padding != []))
  }

  /** The contents of this stream's records, as far as `k` bytes of the records reach. */
  function CutContents(ctx: Context, rs: seq<Record>, k: nat): seq<byte> {
    if rs == [] then []
    else
      var r := rs[0];
      (if Mine(ctx, r) then r.content[..Min(|r.content|, Max(k - HEADER_LEN, 0))] else [])
      + CutContents(ctx, rs[1..], Max(k - |EncodeRecord(r)|, 0))
  }

  /** The answers written by then. */
  function CutDue(rs: seq<Record>, k: nat): seq<Record> {
    if rs == [] then []
    else (if Answered(rs[0], k) then Due(rs[0]) else []) + CutDue(rs[1..], Max(k - |EncodeRecord(rs[0])|, 0))
  }

  lemma {:induction false} NothingArrived(ctx: Context, rs: seq<Record>)
    ensures CutContents(ctx, rs, 0) == [] && CutDue(rs, 0) == []
  {
    if rs != [] {
      NothingArrived(ctx, rs[1..]);
    }
  }

  /**
    A connection that ends anywhere before the stream does, inside a record or between two:
    what has arrived of the stream's contents is delivered, what has been asked is answered,
    and the stream fails.
   */
  lemma {:induction false} StreamCutShort(ctx: Context, rs: seq<Record>, k: nat)
    requires Listening(ctx) && AllRegular(ctx, rs) && ctx.eofCode != 0 && k <= |EncodeAll(rs)|
    ensures Future(ctx, 0, 0, false, EncodeAll(rs)[..k])
            == Run(CutContents(ctx, rs, k), CutDue(rs, k), Failed(ctx.eofCode))
    decreases |rs|
  {
    hide EncodeRecord, Future, Regular, Due, Mine;
    if rs == [] {
      EndOfInput(ctx);
    } else {
      var r, n := rs[0], |EncodeRecord(rs[0])|;
      var w := EncodeAll(rs[1..]);
      if k > n || (k == n && !NeedsMore(r)) {
        PrefixBeyond(EncodeRecord(r), w, k);
        RegularRecord(ctx, r, w[..k - n]);
        StreamCutShort(ctx, rs[1..], k - n);
        assert r.content[..|r.content|] == r.content;
      } else {
        assert (EncodeRecord(r) + w)[..k] == EncodeRecord(r)[..k];
        NothingArrived(ctx, rs[1..]);
        if k == n {
          assert EncodeRecord(r)[..k] == EncodeRecord(r);
          RegularQuery(ctx, r);
          LastQuery(ctx, r);
        } else {
          CutRecord(ctx, r, k);
        }
      }
    }
  }

  lemma RegularQuery(ctx: Context, r: Record)
    requires Regular(ctx, r) && IsQuery(r)
    ensures Legal(r) && Decode(r.content).outcome == Complete
  {
  }

  /** Less than the record still owes. */
  lemma ShortBody(ctx: Context, cLen: nat, pad: nat, skip: bool, body: seq<byte>)
    requires |body| < cLen + pad
    ensures Future(ctx, cLen, pad, skip, body)
            == Emit(if skip then [] else body[..Min(cLen, |body|)], Fail(ctx, ctx.eofCode))
  {
    hide AfterHeader;
    var m := Min(cLen, |body|);
    if 0 < m < cLen {
      assert body[m..] == [];
    }
  }

  lemma ShortNested(code: int, cLen: nat, pad: nat, body: seq<byte>)
    requires |body| < cLen + pad
    ensures Nested(code, cLen, pad, false, body) == Run(body[..Min(cLen, |body|)], [], Failed(code))
  {
    var m := Min(cLen, |body|);
    if 0 < m {
      Unit(body[..m]);
    }
  }

  /** A record cut short, inside its header or behind it. */
  lemma CutRecord(ctx: Context, r: Record, k: nat)
    requires Listening(ctx) && Regular(ctx, r) && ctx.eofCode != 0 && k < |EncodeRecord(r)|
    ensures Future(ctx, 0, 0, false, EncodeRecord(r)[..k])
            == Run(if Mine(ctx, r) then r.content[..Min(|r.content|, Max(k - HEADER_LEN, 0))] else [],
                   if Answered(r, k) then Due(r) else [], Failed(ctx.eofCode))
  {
    hide EncodeRecord, Nested, Decode, UnknownType, EndRequest, Fits, ParseHeader;
    var w := EncodeRecord(r)[..k];
    if k >= HEADER_LEN {
      RecordParts(r, []);
      Unit(EncodeRecord(r));
      Unit(r.content + r.padding);
      assert w[..HEADER_LEN] == EncodeRecord(r)[..HEADER_LEN];
      var body := w[HEADER_LEN..];
      assert body == (r.content + r.padding)[..k - HEADER_LEN];
      var m := Min(|r.content|, |body|);
      assert body[..m] == r.content[..m];
      CutBody(ctx, r, body);
    }
  }

  lemma CutBody(ctx: Context, r: Record, body: seq<byte>)
    requires Listening(ctx) && Regular(ctx, r) && ctx.eofCode != 0 && |body| < |r.content| + |r.padding|
    requires body[..Min(|r.content|, |body|)] == r.content[..Min(|r.content|, |body|)]
    ensures AfterHeader(ctx, false, Header(VERSION_1, r.rtype, r.id, |r.content|, |r.padding|), body)
            == Run(if Mine(ctx, r) then r.content[..Min(|r.content|, |body|)] else [],
                   if IsQuery(r) then [] else Due(r), Failed(ctx.eofCode))
  {
    hide Future, Nested, Decode, ValuesResult, UnknownType, EndRequest, Fits;
    ShortBody(ctx, |r.content|, |r.padding|, true, body);
    ShortBody(ctx, |r.content|, |r.padding|, false, body);
    ShortNested(ctx.eofCode, |r.content|, |r.padding|, body);
    if IsQuery(r) {
      PrefixKeepsLengths(r.content, Min(|r.content|, |body|));
    }
  }

  lemma LastQuery(ctx: Context, r: Record)
    requires Listening(ctx) && Legal(r) && NeedsMore(r) && Decode(r.content).outcome == Complete && ctx.eofCode != 0
    ensures Future(ctx, 0, 0, false, EncodeRecord(r)) == Run([], [], Failed(ctx.eofCode))
    ensures !Mine(ctx, r)
  {
    hide EncodeRecord, Future, ValuesResult;
    Unit(EncodeRecord(r));
    AtRecord(ctx, false, r, []);
    Unit(r.content);
    QueryWithoutMore(ctx.eofCode, r.content);
  }

  lemma QueryWithoutMore(code: int, c: seq<byte>)
    ensures Nested(code, |c|, 0, false, c) == Run(c, [], Failed(code))
  {
  }

  /** A stream cannot end well with less than a header to come. */
  lemma {:induction false} EofNeedsHeader(ctx: Context, cLen: nat, pad: nat, skip: bool, rest: seq<byte>)
    requires Future(ctx, cLen, pad, skip, rest).stop.Eof?
    ensures |rest| >= HEADER_LEN
    decreases |rest|
  {
    hide AfterHeader;
    if cLen > 0 {
      var n := Min(cLen, |rest|);
      EofNeedsHeader(ctx, cLen - n, pad, skip && n < cLen, rest[n..]);
    } else if pad > 0 {
      var n := Min(pad, |rest|);
      EofNeedsHeader(ctx, 0, pad - n, skip, rest[n..]);
    }
  }

  // ---------------------------------------------------------------- queries

  /**
    A well-formed query: unpadded and with nothing behind it, it waits for a byte that never
    comes; otherwise it is answered if and only if the answer fits its array.
   */
  lemma QueryRecord(ctx: Context, r: Record, w: seq<byte>)
    requires Listening(ctx) && Legal(r) && IsQuery(r) && Decode(r.content).outcome == Complete && ctx.eofCode != 0
    ensures Future(ctx, 0, 0, false, EncodeRecord(r) + w)
            == if r.padding == [] && w == [] then Run([], [], Failed(ctx.eofCode))
               else if !Fits(Entries(Decode(r.content).pairs)) then Run([], [], Overrun)
               else Reply(ValuesResult(Entries(Decode(r.content).pairs)), Future(ctx, 0, 0, false, w))
  {
    hide EncodeRecord, Future, Nested, Decode, ValuesResult, Fits;
    if r.padding == [] && w == [] {
      Unit(EncodeRecord(r));
      LastQuery(ctx, r);
    } else {
      AtRecord(ctx, false, r, w);
      ThroughNested(EofErrno(ctx), r.content, r.padding, w);
    }
  }

  /** So an answer comes back if and only if it fits and another byte has arrived. */
  lemma QueryIsAnswered(ctx: Context, r: Record, w: seq<byte>)
    requires Listening(ctx) && Legal(r) && IsQuery(r) && Decode(r.content).outcome == Complete && ctx.eofCode != 0
    ensures var replies := Future(ctx, 0, 0, false, EncodeRecord(r) + w).replies;
            (replies != [] && replies[0] == ValuesResult(Entries(Decode(r.content).pairs)))
            <==> Fits(Entries(Decode(r.content).pairs)) && (r.padding != [] || w != [])
  {
    hide EncodeRecord, Future, Decode, ValuesResult, Fits;
    QueryRecord(ctx, r, w);
  }

  /** FCGI_MAX_CONNS asked for four times. */
  function FourQuestions(): (ps: seq<Pair>)
    ensures AllEncodable(ps)
  {
    var p := Pair(Bytes(MAX_CONNS), []);
    [p, p, p, p]
  }

  /** A legal, well-formed query of 64 bytes whose answer overruns its array. */
  lemma AskedTooOften(ctx: Context, x: byte)
    requires Listening(ctx) && ctx.eofCode != 0
    ensures var r := Plain(GET_VALUES, NULL_REQUEST_ID, EncodePairs(FourQuestions()), 0);
            && Legal(r) && IsQuery(r) && Decode(r.content) == Decoded(FourQuestions(), Complete)
            && Future(ctx, 0, 0, false, EncodeRecord(r) + [x]) == Run([], [], Overrun)
  {
    hide EncodeRecord, Future, Decode, DecodeFirst, CutName, KnownValue, Bytes, EncodePair;
    var ps := FourQuestions();
    var r := Plain(GET_VALUES, NULL_REQUEST_ID, EncodePairs(ps), 0);
    FourLengths();
    DecodeEncode(ps);
    var name := Bytes(MAX_CONNS);
    ProperName();
    CutNameOfEntry(ps[0]);
    var es := Entries(ps);
    assert Asked(name, es[4..]) == 0 && Asked(name, es[3..]) == 1 && Asked(name, es[2..]) == 2
           && Asked(name, es[1..]) == 3;
    QueryRecord(ctx, r, [x]);
  }

  lemma ProperName()
    ensures EQUALS !in Bytes(MAX_CONNS) && 0 !in Bytes(MAX_CONNS)
  {
  }

  lemma FourLengths()
    ensures |EncodePairs(FourQuestions())| == 64
  {
    var ps := FourQuestions();
    KnownNamesDiffer();
    var p := ps[0];
    assert |EncodePair(p)| == 16;
    assert EncodePairs([p]) == EncodePair(p) + EncodePairs([p][1..]);
    assert EncodePairs([p, p]) == EncodePair(p) + EncodePairs([p, p][1..]) && [p, p][1..] == [p];
    assert EncodePairs([p, p, p]) == EncodePair(p) + EncodePairs([p, p, p][1..]) && [p, p, p][1..] == [p, p];
    assert ps[1..] == [p, p, p];
  }

  // ---------------------------------------------------------------- BEGIN_REQUEST

  /** The first BEGIN_REQUEST on a connection. */
  lemma BeginRecord(ctx: Context, r: Record, w: seq<byte>)
    requires !ctx.begun && Legal(r) && r.rtype == BEGIN_REQUEST && r.id != 0 && |r.content| == 8
    ensures Future(ctx, 0, 0, false, EncodeRecord(r) + w)
            == Run([], [], Began(r.id, r.content[2] % 2 == 1, Word(r.content[0], r.content[1]), r.padding + w))
  {
    hide EncodeRecord, Future;
    AtRecord(ctx, false, r, w);
    var b := r.content + r.padding + w;
    Assoc(r.content, r.padding, w);
    Seam(r.content, r.padding + w);
    NestedContent(EofErrno(ctx), 8, |r.padding|, b, 8);
    var n := Nested(EofErrno(ctx), 8, |r.padding|, false, b);
    assert n.bytes == r.content + Nested(EofErrno(ctx), 0, |r.padding|, false, r.padding + w).bytes;
  }

  // ---------------------------------------------------------------- every record there can be

  /** The stream ends here, with this error unless there is an earlier one. */
  function Stops(ctx: Context, code: int): Run {
    Run([], [], Failed(if ctx.errno == 0 then code else ctx.errno))
  }

  /** The content, unless it is to be skipped, and what comes behind the record. */
  function Through(ctx: Context, skip: bool, c: seq<byte>, w: seq<byte>): Run {
    Emit(if skip then [] else c, Future(ctx, 0, 0, skip && c == [], w))
  }

  /** A header of another version than 1: FCGX_UNSUPPORTED_VERSION. */
  lemma OtherVersion(ctx: Context, skip: bool, w: seq<byte>)
    requires |w| >= 8 && w[0] != 1
    ensures Future(ctx, 0, 0, skip, w) == Stops(ctx, -2)
  {
  }

  /** A record of the stream's own request: of another type, it is a protocol error; empty, the end. */
  lemma OwnRecord(ctx: Context, skip: bool, r: Record, w: seq<byte>)
    requires Legal(r) && r.rtype != 1 && r.id != 0 && r.id == ctx.id
    ensures Future(ctx, 0, 0, skip, EncodeRecord(r) + w)
            == if r.rtype != ctx.rtype then Stops(ctx, -3)
               else if r.content == [] then Run([], [], Eof(r.padding + w))
               else Through(ctx, skip, r.content, w)
  {
    hide EncodeRecord, Future;
    AtRecord(ctx, skip, r, w);
    Unit(r.padding);
    ThroughRecord(ctx, skip, r.content, r.padding, w);
  }

  /** A record of another request: its content is skipped, and if it has none the next is. */
  lemma ForeignRecord(ctx: Context, skip: bool, r: Record, w: seq<byte>)
    requires Legal(r) && r.rtype != 1 && r.id != 0 && r.id != ctx.id
    ensures Future(ctx, 0, 0, skip, EncodeRecord(r) + w) == Through(ctx, true, r.content, w)
  {
    hide EncodeRecord, Future;
    AtRecord(ctx, skip, r, w);
    ThroughRecord(ctx, true, r.content, r.padding, w);
  }

  /**
    BEGIN_REQUEST: for id 0, or with a body that is not eight bytes, a protocol error; while a
    request is being read, refused with CANT_MPX_CONN; otherwise the beginning of the request,
    unless an empty record of another one came just before it.
   */
  lemma AnyBegin(ctx: Context, skip: bool, r: Record, w: seq<byte>)
    requires Legal(r) && r.rtype == 1
    ensures Future(ctx, 0, 0, skip, EncodeRecord(r) + w)
            == if r.id == 0 || |r.content| != 8 then Stops(ctx, -3)
               else if ctx.begun then
                 Reply(Record(3, r.id, [0, 0, 0, 0, 1, 0, 0, 0], [], 0), Through(ctx, true, r.content, w))
               else if skip then Run([], [], Cut(r.id, if ctx.errno == 0 then -3 else ctx.errno))
               else
                 var b1: int, b0: int := r.content[0], r.content[1];
                 Run([], [], Began(r.id, r.content[2] % 2 == 1, b1 * 256 + b0, r.padding + w))
  {
    hide EncodeRecord, Future;
    AtRecord(ctx, skip, r, w);
    if r.id != 0 && |r.content| == 8 {
      ThroughRecord(ctx, true, r.content, r.padding, w);
      assert Zeros(0) == [];
      if !ctx.begun {
        BodyOfBegin(ctx, skip, r, w);
      }
    }
  }

  /** The sixteen bytes of a BEGIN_REQUEST, without what they say of padding, at position `k` of `w`. */
  predicate BeginAt(w: seq<byte>, k: nat, id: int, keep: bool, role: int) {
    && k + 16 <= |w| && w[k] == 1 && w[k + 1] == 1 && w[k + 4] == 0 && w[k + 5] == 8
    && var i1: int, i0: int, r1: int, r0: int := w[k + 2], w[k + 3], w[k + 8], w[k + 9];
       id == i1 * 256 + i0 && id != 0 && role == r1 * 256 + r0 && keep == (w[k + 10] % 2 == 1)
  }

  /** A request that has begun has begun with one, which is among the bytes that have come. */
  predicate BeginIn(w: seq<byte>, s: Stop)
    requires s.Began?
  {
    exists k: nat :: k + 16 + |s.rest| == |w| && BeginAt(w, k, s.id, s.keep, s.role) && w[k + 16..] == s.rest
  }

  lemma BeginBehind(w: seq<byte>, n: nat, s: Stop)
    requires n <= |w| && s.Began? && BeginIn(w[n..], s)
    ensures BeginIn(w, s)
  {
    var v := w[n..];
    var k: nat :| k + 16 + |s.rest| == |v| && BeginAt(v, k, s.id, s.keep, s.role) && v[k + 16..] == s.rest;
    assert v[k + 16..] == w[n + k + 16..];
    assert BeginAt(w, n + k, s.id, s.keep, s.role);
  }

  /** What is left of a record's content is an end of it. */
  lemma {:induction false} NestedEnds(code: int, cLen: nat, pad: nat, skip: bool, w: seq<byte>)
    ensures var n := Nested(code, cLen, pad, skip, w);
            && (n.stop.Eof? ==> |n.stop.rest| <= |w| && n.stop.rest == w[|w| - |n.stop.rest|..])
            && |n.bytes| <= |w| && n.bytes == w[..|n.bytes|]
    decreases |w|
  {
    if w != [] && cLen > 0 && !skip {
      var n := Min(cLen, |w|);
      NestedEnds(code, cLen - n, pad, false, w[n..]);
    }
  }

  lemma {:induction false} BeganSomewhere(ctx: Context, cLen: nat, pad: nat, skip: bool, w: seq<byte>)
    requires Future(ctx, cLen, pad, skip, w).stop.Began?
    ensures BeginIn(w, Future(ctx, cLen, pad, skip, w).stop)
    decreases |w|
  {
    hide AfterHeader, BeginIn, ParseHeader;
    var s := Future(ctx, cLen, pad, skip, w).stop;
    if cLen > 0 || pad > 0 {
      var n := Min(if cLen > 0 then cLen else pad, |w|);
      if cLen > 0 {
        BeganSomewhere(ctx, cLen - n, pad, skip && n < cLen, w[n..]);
      } else {
        BeganSomewhere(ctx, 0, pad - n, skip, w[n..]);
      }
      BeginBehind(w, n, s);
    } else {
      BeganBehindHeader(ctx, skip, w);
    }
  }

  lemma {:induction false} BeganBehindHeader(ctx: Context, skip: bool, w: seq<byte>)
    requires |w| >= HEADER_LEN
    requires AfterHeader(ctx, skip, ParseHeader(w[..HEADER_LEN]), w[HEADER_LEN..]).stop.Began?
    ensures BeginIn(w, AfterHeader(ctx, skip, ParseHeader(w[..HEADER_LEN]), w[HEADER_LEN..]).stop)
    decreases |w|, 0
  {
    hide BeginIn, Future, Nested, Decode, Fits, ValuesResult;
    var h, body := ParseHeader(w[..HEADER_LEN]), w[HEADER_LEN..];
    var s := AfterHeader(ctx, skip, h, body).stop;
    match Classify(ctx, h)
    case Reject(_) =>
    case Begin =>
      if ctx.begun {
        assert false;
      }
      BeganHere(ctx, skip, w);
    case Values =>
      NestedEnds(EofErrno(ctx), h.contentLength, h.paddingLength, skip, body);
      var rest := Nested(EofErrno(ctx), h.contentLength, h.paddingLength, skip, body).stop.rest;
      BeganSomewhere(ctx, 0, 0, skip && h.contentLength == 0, rest);
      assert rest == w[|w| - |rest|..];
      BeginBehind(w, |w| - |rest|, s);
    case Unknown(_) =>
      BeganSomewhere(ctx, h.contentLength, h.paddingLength, skip, body);
      BeginBehind(w, HEADER_LEN, s);
    case Other =>
      BeganSomewhere(ctx, h.contentLength, h.paddingLength, true, body);
      BeginBehind(w, HEADER_LEN, s);
    case Stream =>
      BeganSomewhere(ctx, h.contentLength, h.paddingLength, skip, body);
      BeginBehind(w, HEADER_LEN, s);
  }

  lemma BeganHere(ctx: Context, skip: bool, w: seq<byte>)
    requires |w| >= HEADER_LEN && !ctx.begun
    requires ParseHeader(w[..HEADER_LEN]).version == VERSION_1 && ParseHeader(w[..HEADER_LEN]).rtype == BEGIN_REQUEST
    requires var h := ParseHeader(w[..HEADER_LEN]);
             AfterBegin(ctx, h.id, h.contentLength, h.paddingLength, skip, w[HEADER_LEN..]).stop.Began?
    ensures var h := ParseHeader(w[..HEADER_LEN]);
            BeginIn(w, AfterBegin(ctx, h.id, h.contentLength, h.paddingLength, skip, w[HEADER_LEN..]).stop)
  {
    hide Nested;
    var h, body := ParseHeader(w[..HEADER_LEN]), w[HEADER_LEN..];
    var n := Nested(EofErrno(ctx), 8, h.paddingLength, skip, body);
    NestedEnds(EofErrno(ctx), 8, h.paddingLength, skip, body);
    assert n.bytes == body[..8] && body[8..] == w[16..];
    var s := AfterBegin(ctx, h.id, h.contentLength, h.paddingLength, skip, body).stop;
    assert BeginAt(w, 0, s.id, s.keep, s.role);
  }

  /** The refusal on the wire: a status of zero, and 1 for CANT_MPX_CONN. */
  lemma RefusalBytes(ctx: Context, skip: bool, r: Record, w: seq<byte>)
    requires Legal(r) && r.rtype == 1 && r.id != 0 && |r.content| == 8 && ctx.begun
    ensures var replies := Future(ctx, 0, 0, skip, EncodeRecord(r) + w).replies;
            && replies != []
            && EncodeRecord(replies[0]) == [1, 3, r.id / 256, r.id % 256, 0, 8, 0, 0] + [0, 0, 0, 0, 1, 0, 0, 0]
            && replies[1..] == Future(ctx, 0, 0, false, w).replies
  {
    hide EncodeRecord, Future;
    AnyBegin(ctx, skip, r, w);
    RecordBytes(Record(3, r.id, [0, 0, 0, 0, 1, 0, 0, 0], [], 0));
  }

  lemma BodyOfBegin(ctx: Context, skip: bool, r: Record, w: seq<byte>)
    requires |r.content| == 8
    ensures var b := r.content + r.padding + w;
            && b[8..] == r.padding + w
            && Nested(EofErrno(ctx), 8, |r.padding|, skip, b).bytes == (if skip then [] else r.content)
            && (skip ==> Nested(EofErrno(ctx), 8, |r.padding|, skip, b).stop.Eof?)
  {
    var b := r.content + r.padding + w;
    Assoc(r.content, r.padding, w);
    Seam(r.content, r.padding + w);
    if !skip {
      NestedContent(EofErrno(ctx), 8, |r.padding|, b, 8);
      var n := Nested(EofErrno(ctx), 0, |r.padding|, false, r.padding + w);
      assert n.bytes == [];
      Unit(r.content);
    }
  }

  /** A management record that is not a query: answered with its type, its content not consumed. */
  lemma UnknownRecord(ctx: Context, skip: bool, r: Record, w: seq<byte>)
    requires Legal(r) && r.rtype != 1 && r.rtype != 9 && r.id == 0
    ensures Future(ctx, 0, 0, skip, EncodeRecord(r) + w)
            == Reply(Record(11, 0, [r.rtype, 0, 0, 0, 0, 0, 0, 0], [], 0), Through(ctx, skip, r.content, w))
  {
    hide EncodeRecord, Future;
    AtRecord(ctx, skip, r, w);
    ThroughRecord(ctx, skip, r.content, r.padding, w);
    assert Zeros(0) == [];
  }

  /**
    A query that has arrived whole, with padding or a byte behind it: malformed, it is a
    parameter error; if an error has been recorded, that one ends the stream; its answer is
    written, if it fits.
   */
  lemma AnyQuery(ctx: Context, r: Record, w: seq<byte>)
    requires Legal(r) && r.rtype == 9 && r.id == 0 && (r.padding != [] || w != [])
    ensures var d := Decode(r.content);
            Future(ctx, 0, 0, false, EncodeRecord(r) + w)
            == if d.outcome != Complete then Stops(ctx, -4)
               else if ctx.errno != 0 then Stops(ctx, ctx.errno)
               else if !Fits(Entries(d.pairs)) then Run([], [], Overrun)
               else Reply(ValuesResult(Entries(d.pairs)), Future(ctx, 0, 0, false, w))
  {
    hide EncodeRecord, Future, Nested, Decode, ValuesResult, Fits;
    AtRecord(ctx, false, r, w);
    ThroughNested(EofErrno(ctx), r.content, r.padding, w);
  }

  /** Behind an empty record of another request a query's content is skipped, and its answer is empty. */
  lemma SkippedQuery(ctx: Context, r: Record, w: seq<byte>)
    requires Legal(r) && r.rtype == 9 && r.id == 0 && (r.content != [] || r.padding != [] || w != [])
    ensures Future(ctx, 0, 0, true, EncodeRecord(r) + w)
            == if ctx.errno != 0 then Stops(ctx, ctx.errno)
               else Reply(Record(10, 0, [], [], 0), Future(ctx, 0, 0, r.content == [], w))
  {
    hide EncodeRecord, Future, Fits;
    AtRecord(ctx, true, r, w);
    var b := r.content + r.padding + w;
    Assoc(r.content, r.padding, w);
    Seam(r.content, r.padding + w);
    Seam(r.padding, w);
    assert Nested(EofErrno(ctx), |r.content|, |r.padding|, true, b) == Run([], [], Eof(w));
    NoQuestions();
  }

  lemma NoQuestions()
    ensures Decode([]) == Decoded([], Complete) && Entries([]) == [] && Fits([])
    ensures ValuesResult([]) == Record(10, 0, [], [], 0)
  {
    assert Zeros(0) == [];
  }

  // ---------------------------------------------------------------- what the reader does not tolerate

  /** A record of this stream in front of the end of the connection. */
  lemma OwnByte(ctx: Context, skip: bool, x: byte)
    requires Listening(ctx) && 0 <= ctx.rtype < 256 && ctx.rtype != BEGIN_REQUEST && ctx.id < 65536
    ensures Future(ctx, 0, 0, skip, EncodeRecord(Plain(ctx.rtype, ctx.id, [x], 0))).bytes == if skip then [] else [x]
  {
    hide EncodeRecord, Future;
    var r := Plain(ctx.rtype, ctx.id, [x], 0);
    Unit(EncodeRecord(r));
    AtRecord(ctx, skip, r, []);
    ThroughRecord(ctx, skip, r.content, r.padding, []);
    EndOfInput(ctx);
  }

  lemma EndOfInput(ctx: Context)
    ensures Future(ctx, 0, 0, false, []) == Fail(ctx, ctx.eofCode)
  {
  }

  /**
    A record of another request is passed over without a trace if and only if it has content:
    `skip` is taken back only when content has been consumed.
   */
  lemma OtherRequestsRecord(ctx: Context, r: Record)
    requires Listening(ctx) && 0 <= ctx.rtype < 256 && ctx.rtype != BEGIN_REQUEST && ctx.id < 65536
    requires Legal(r) && r.rtype != BEGIN_REQUEST && r.id != NULL_REQUEST_ID && r.id != ctx.id
    ensures (forall w :: Future(ctx, 0, 0, false, EncodeRecord(r) + w) == Future(ctx, 0, 0, false, w))
            <==> r.content != []
  {
    hide EncodeRecord, Future;
    forall w
      ensures Future(ctx, 0, 0, false, EncodeRecord(r) + w) == Future(ctx, 0, 0, r.content == [], w)
    {
      AtRecord(ctx, false, r, w);
      ThroughRecord(ctx, true, r.content, r.padding, w);
      EmitNothing(Future(ctx, 0, 0, r.content == [], w));
    }
    if r.content == [] {
      var w := EncodeRecord(Plain(ctx.rtype, ctx.id, [0], 0));
      OwnByte(ctx, true, 0);
      OwnByte(ctx, false, 0);
      assert Future(ctx, 0, 0, false, EncodeRecord(r) + w) != Future(ctx, 0, 0, false, w);
    }
  }

  /**
    An unknown management record is answered and otherwise passed over if and only if it is
    empty: its content is not consumed, and so is delivered to the client.
   */
  lemma UnknownManagementRecord(ctx: Context, r: Record)
    requires Listening(ctx)
    requires Legal(r) && r.rtype != BEGIN_REQUEST && r.id == NULL_REQUEST_ID && r.rtype != GET_VALUES
    ensures (forall w :: Future(ctx, 0, 0, false, EncodeRecord(r) + w)
                         == Reply(UnknownType(r.rtype), Future(ctx, 0, 0, false, w)))
            <==> r.content == []
  {
    hide EncodeRecord, Future, UnknownType;
    forall w
      ensures Future(ctx, 0, 0, false, EncodeRecord(r) + w)
              == Reply(UnknownType(r.rtype), Emit(r.content, Future(ctx, 0, 0, false, w)))
    {
      AtRecord(ctx, false, r, w);
      ThroughRecord(ctx, false, r.content, r.padding, w);
    }
    if r.content == [] {
      forall w {
        EmitNothing(Future(ctx, 0, 0, false, w));
      }
    } else {
      EndOfInput(ctx);
      assert Future(ctx, 0, 0, false, EncodeRecord(r) + [])
             != Reply(UnknownType(r.rtype), Future(ctx, 0, 0, false, []));
    }
  }

  /**
    The record that ends a phase may be zero-padded if and only if the padding is empty: the
    next phase starts at the padding, because SetReaderType forgets that any is owed.
   */
  lemma PhaseEndsUnpadded(next: Context, pad: nat)
    requires Listening(next) && 0 <= next.rtype < 256 && next.rtype != BEGIN_REQUEST && next.id < 65536
    ensures (forall w :: Future(next, 0, 0, false, Zeros(pad) + w) == Future(next, 0, 0, false, w)) <==> pad == 0
  {
    hide EncodeRecord, Future;
    if pad == 0 {
      forall w: seq<byte> {
        Unit(w);
      }
    } else {
      var w := EncodeRecord(Plain(next.rtype, next.id, [0], 0));
      OwnByte(next, false, 0);
      ZeroVersion(next, Zeros(pad) + w);
      assert Future(next, 0, 0, false, Zeros(pad) + w) != Future(next, 0, 0, false, w);
    }
  }

  lemma ZeroVersion(ctx: Context, w: seq<byte>)
    requires |w| >= HEADER_LEN && w[0] == 0
    ensures Future(ctx, 0, 0, false, w) == Fail(ctx, UNSUPPORTED_VERSION)
  {
  }
}
