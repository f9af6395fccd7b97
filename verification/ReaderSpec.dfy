/**
  What an input stream delivers, as a function of the bytes that will ever arrive on its
  connection.  The functions are total: the input need not be well formed, and nothing in
  them knows how reads cut it.
 */
module ReaderSpec {
  import opened Seqs
  import opened Protocol
  import opened NameValue
  import opened Environment
  import opened Management

  /**
    What the reader holds fixed while it reads: the stream type it delivers, the request id
    it listens to, whether BEGIN_REQUEST has been processed, the error already recorded on
    the stream, and the error code that the end of the connection will be given.
   */
  datatype Context = Context(rtype: int, id: int, begun: bool, errno: int, eofCode: int)

  /**
    How a stream ends.  Cut: inside the body of BEGIN_REQUEST, whose id is in force by then.
    Overrun: an answer has been written past the end of its array, and
    nothing that the program does from there on is known.
   */
  datatype Stop =
    | Eof(rest: seq<byte>)
    | Failed(errno: int)
    | Cut(id: nat, errno: int)
    | Began(id: nat, keep: bool, role: nat, rest: seq<byte>)
    | Overrun

  /** The bytes delivered, the records written back, and how the stream ends. */
  datatype Run = Run(bytes: seq<byte>, replies: seq<Record>, stop: Stop)

  function Emit(w: seq<byte>, r: Run): Run {
    Run(w + r.bytes, r.replies, r.stop)
  }

  function Reply(q: Record, r: Run): Run {
    Run(r.bytes, [q] + r.replies, r.stop)
  }

  function Replies(q: seq<Record>, r: Run): Run {
    Run(r.bytes, q + r.replies, r.stop)
  }

  /** SetError keeps the first error. */
  function FirstError(first: int, code: int): int {
    if first != 0 then first else code
  }

  /** The error on the stream once the connection has ended under it. */
  function EofErrno(ctx: Context): int {
    FirstError(ctx.errno, ctx.eofCode)
  }

  /** Stands for an overrun where a state has only an error code to show it by. */
  const OVERRUN := -100

  /** The error on a stream that has stopped, `errno` being the one before. */
  function StopErrno(stop: Stop, errno: int): int {
    match stop
    case Failed(code) => code
    case Cut(_, code) => code
    case Overrun => OVERRUN
    case _ => errno
  }

  /** The request id in force once a stream has delivered or ended, `id` being the one before. */
  function IdAfter(id: int, r: Run): int {
    if r.bytes != [] then id
    else
      match r.stop
      case Began(begun, _, _, _) => begun
      case Cut(begun, _) => begun
      case _ => id
  }

  function Fail(ctx: Context, code: int): Run {
    Run([], [], Failed(FirstError(ctx.errno, code)))
  }

  // ---------------------------------------------------------------- one record's content, under eorStop

  /** Padding up to the end of the record, then end-of-file; `code` is the error if the connection ends. */
  function NestedPadding(code: int, pad: nat, rest: seq<byte>): (r: Run)
    ensures r.stop.Eof? || r.stop.Failed?
    ensures r.stop.Eof? ==> |r.stop.rest| <= |rest|
  {
    if pad <= |rest| then Run([], [], Eof(rest[pad..])) else Run([], [], Failed(code))
  }

  /**
    The stream that ProcessHeader's callees see: the rest of the current record.  A call with
    nothing buffered reads first, so even an exhausted record needs one more byte to end on;
    content that `skip` discards is not followed by that read.
   */
  function Nested(code: int, cLen: nat, pad: nat, skip: bool, rest: seq<byte>): (r: Run)
    ensures r.replies == [] && (r.stop.Eof? || r.stop.Failed?)
    ensures r.stop.Failed? ==> r.stop.errno == code
    ensures |r.bytes| <= cLen
    ensures r.stop.Eof? ==> |r.stop.rest| <= |rest|
    decreases |rest|
  {
    if rest == [] then Run([], [], Failed(code))
    else if cLen == 0 then NestedPadding(code, pad, rest)
    else
      var n := Min(cLen, |rest|);
      if !skip then Emit(rest[..n], Nested(code, cLen - n, pad, false, rest[n..]))
      else if n < cLen then Run([], [], Failed(code))
      else NestedPadding(code, pad, rest[n..])
  }

  // ---------------------------------------------------------------- headers

  datatype Verdict =
    | Reject(code: int)
    | Begin
    | Values
    | Unknown(rtype: byte)
    | Other
    | Stream

  /** ProcessHeader's dispatch. */
  function Classify(ctx: Context, h: Header): Verdict {
    if h.version != VERSION_1 then Reject(UNSUPPORTED_VERSION)
    else if h.rtype == BEGIN_REQUEST then Begin
    else if h.id == NULL_REQUEST_ID then
      if h.rtype == GET_VALUES then Values else Unknown(h.rtype)
    else if h.id != ctx.id then Other
    else if h.rtype != ctx.rtype then Reject(PROTOCOL_ERROR)
    else Stream
  }

  /** The error ReadParams leaves on its stream, given the stream's own end. */
  function ParamsErrno(errno: int, stop: Stop, outcome: Outcome): int {
    match outcome
    case Complete => StopErrno(stop, errno)
    case Truncated => FirstError(StopErrno(stop, errno), PARAMS_ERROR)
    case BadLength => FirstError(errno, PARAMS_ERROR)
  }

  /** The id is in force whether or not its body was complete. */
  function BeginBody(errno: int, id: nat, n: Run, rest: seq<byte>): (r: Run)
    ensures forall before :: IdAfter(before, r) == id
  {
    if |n.bytes| < 8 then
      Run([], [], Cut(id, if n.stop.Failed? then n.stop.errno else FirstError(errno, PROTOCOL_ERROR)))
    else Run([], [], Began(id, n.bytes[2] % 2 == 1, Word(n.bytes[0], n.bytes[1]), rest))
  }

  // ---------------------------------------------------------------- the whole stream

  /**
    Everything still to come: `cLen` and `pad` bytes are owed by the current record, `skip`
    says its content is not ours, and `rest` is what follows.
   */
  function Future(ctx: Context, cLen: nat, pad: nat, skip: bool, rest: seq<byte>): (r: Run)
    ensures ctx.begun ==> !r.stop.Began? && !r.stop.Cut?
    decreases |rest|, 0
  {
    if cLen > 0 then
      if rest == [] then Fail(ctx, ctx.eofCode)
      else
        var n := Min(cLen, |rest|);
        Emit(if skip then [] else rest[..n], Future(ctx, cLen - n, pad, skip && n < cLen, rest[n..]))
    else if pad > 0 then
      if rest == [] then Fail(ctx, ctx.eofCode)
      else
        var n := Min(pad, |rest|);
        Future(ctx, 0, pad - n, skip, rest[n..])
    else if |rest| < HEADER_LEN then Fail(ctx, ctx.eofCode)
    else AfterHeader(ctx, skip, ParseHeader(rest[..HEADER_LEN]), rest[HEADER_LEN..])
  }

  /** ProcessBeginRecord, the header's fields being known. */
  function AfterBegin(ctx: Context, id: nat, cLen: nat, pad: nat, skip: bool, body: seq<byte>): (r: Run)
    ensures ctx.begun ==> !r.stop.Began? && !r.stop.Cut?
    decreases |body|, 1
  {
    if id == 0 || cLen != 8 then Fail(ctx, PROTOCOL_ERROR)
    else if ctx.begun then Reply(EndRequest(id, 0, CANT_MPX_CONN), Future(ctx, 8, pad, true, body))
    else BeginBody(ctx.errno, id, Nested(EofErrno(ctx), 8, pad, skip, body), if |body| >= 8 then body[8..] else [])
  }

  /** A complete header has been read and `body` follows it. */
  function AfterHeader(ctx: Context, skip: bool, h: Header, body: seq<byte>): (r: Run)
    ensures ctx.begun ==> !r.stop.Began? && !r.stop.Cut?
    decreases |body|, 2
  {
    match Classify(ctx, h)
    case Reject(code) => Fail(ctx, code)
    case Begin => AfterBegin(ctx, h.id, h.contentLength, h.paddingLength, skip, body)
    case Values => AfterValues(ctx, h.contentLength, h.paddingLength, skip, body)
    case Unknown(t) => Reply(UnknownType(t), Future(ctx, h.contentLength, h.paddingLength, skip, body))
    case Other => Future(ctx, h.contentLength, h.paddingLength, true, body)
    case Stream =>
      if h.contentLength == 0 then Run([], [], Eof(body))
      else Future(ctx, h.contentLength, h.paddingLength, skip, body)
  }

  /** GET_VALUES: any recorded error is a protocol error, otherwise answer, if the answer fits, and go on. */
  function AfterValues(ctx: Context, cLen: nat, pad: nat, skip: bool, body: seq<byte>): (r: Run)
    ensures ctx.begun ==> !r.stop.Began? && !r.stop.Cut?
    decreases |body|, 1
  {
    var n := Nested(EofErrno(ctx), cLen, pad, skip, body);
    var d := Decode(n.bytes);
    var errno := ParamsErrno(ctx.errno, n.stop, d.outcome);
    if errno != 0 || n.stop.Failed? then Run([], [], Failed(FirstError(errno, PROTOCOL_ERROR)))
    else if !Fits(Entries(d.pairs)) then Run([], [], Overrun)
    else Reply(ValuesResult(Entries(d.pairs)), Future(ctx, 0, 0, skip && cLen == 0, n.stop.rest))
  }

  // ---------------------------------------------------------------- how a read cuts the input does not matter

  lemma FutureContent(ctx: Context, cLen: nat, pad: nat, skip: bool, rest: seq<byte>, n: nat)
    requires 0 < n <= cLen && n <= |rest|
    ensures Future(ctx, cLen, pad, skip, rest)
            == Emit(if skip then [] else rest[..n], Future(ctx, cLen - n, pad, skip && n < cLen, rest[n..]))
  {
    var m := Min(cLen, |rest|);
    if n < m {
      TwoCuts(rest, n, m);
      var t := Future(ctx, cLen - m, pad, skip && m < cLen, rest[m..]);
      EmitTwice(rest[..n], rest[n..m], t);
      EmitTwice([], [], t);
    }
  }

  lemma FuturePadding(ctx: Context, pad: nat, skip: bool, rest: seq<byte>, n: nat)
    requires n <= pad && n <= |rest|
    ensures Future(ctx, 0, pad, skip, rest) == Future(ctx, 0, pad - n, skip, rest[n..])
  {
  }

  lemma NestedContent(code: int, cLen: nat, pad: nat, rest: seq<byte>, n: nat)
    requires 0 < n <= cLen && n <= |rest|
    ensures Nested(code, cLen, pad, false, rest) == Emit(rest[..n], Nested(code, cLen - n, pad, false, rest[n..]))
  {
    var m := Min(cLen, |rest|);
    if n < m {
      TwoCuts(rest, n, m);
      EmitTwice(rest[..n], rest[n..m], Nested(code, cLen - m, pad, false, rest[m..]));
    }
  }

  lemma TwoCuts(s: seq<byte>, n: nat, m: nat)
    requires n <= m <= |s|
    ensures s[..n] + s[n..m] == s[..m]
    ensures s[n..][..m - n] == s[n..m]
    ensures s[n..][m - n..] == s[m..]
  {
  }

  lemma EmitTwice(a: seq<byte>, b: seq<byte>, r: Run)
    ensures Emit(a, Emit(b, r)) == Emit(a + b, r)
  {
  }

  lemma EmitNothing(r: Run)
    ensures Emit([], r) == r
  {
  }

  lemma RepliesNothing(r: Run)
    ensures Replies([], r) == r
  {
  }

  // ---------------------------------------------------------------- both levels of the reader at once

  /** What a call of FillBuffProc makes of `w`: the current record only, or the whole stream. */
  function Comes(eorStop: bool, ctx: Context, cLen: nat, pad: nat, skip: bool, w: seq<byte>): Run {
    if eorStop then Nested(EofErrno(ctx), cLen, pad, skip, w) else Future(ctx, cLen, pad, skip, w)
  }

  /** The same in the middle of a pass, when the read that a pass begins with is behind it. */
  function Midway(eorStop: bool, ctx: Context, cLen: nat, pad: nat, skip: bool, w: seq<byte>): Run {
    if eorStop && cLen == 0 then NestedPadding(EofErrno(ctx), pad, w) else Comes(eorStop, ctx, cLen, pad, skip, w)
  }

  lemma DeliverStep(eorStop: bool, ctx: Context, cLen: nat, pad: nat, w: seq<byte>, n: nat)
    requires 0 < n <= cLen && n <= |w|
    ensures Comes(eorStop, ctx, cLen, pad, false, w) == Emit(w[..n], Comes(eorStop, ctx, cLen - n, pad, false, w[n..]))
  {
    FutureContent(ctx, cLen, pad, false, w, n);
    NestedContent(EofErrno(ctx), cLen, pad, w, n);
  }

  lemma SkipStep(eorStop: bool, ctx: Context, cLen: nat, pad: nat, w: seq<byte>, n: nat)
    requires 0 < n == Min(cLen, |w|)
    ensures Comes(eorStop, ctx, cLen, pad, true, w) == Midway(eorStop, ctx, cLen - n, pad, n < cLen, w[n..])
  {
  }

  lemma SkipPartStep(eorStop: bool, ctx: Context, cLen: nat, pad: nat, w: seq<byte>, n: nat)
    requires 0 < n < cLen && n <= |w|
    ensures Comes(eorStop, ctx, cLen, pad, true, w) == Midway(eorStop, ctx, cLen - n, pad, true, w[n..])
  {
  }

  lemma PaddingStep(eorStop: bool, ctx: Context, pad: nat, skip: bool, w: seq<byte>, n: nat)
    requires n <= pad && n <= |w|
    ensures Midway(eorStop, ctx, 0, pad, skip, w) == Midway(eorStop, ctx, 0, pad - n, skip, w[n..])
  {
  }

  /** Starting a pass and being in the middle of one differ only on an exhausted record with no byte left. */
  lemma PassBoundary(eorStop: bool, ctx: Context, cLen: nat, pad: nat, skip: bool, w: seq<byte>)
    requires w != [] || pad > 0 || cLen > 0
    ensures Midway(eorStop, ctx, cLen, pad, skip, w) == Comes(eorStop, ctx, cLen, pad, skip, w)
  {
  }

  /** With less than a header left on the connection, the stream fails. */
  lemma ComesToAnEnd(eorStop: bool, ctx: Context, cLen: nat, pad: nat, skip: bool, header: seq<byte>)
    requires |header| < HEADER_LEN
    requires header != [] ==> !eorStop && cLen == 0 && pad == 0
    ensures Comes(eorStop, ctx, cLen, pad, skip, header) == Run([], [], Failed(EofErrno(ctx)))
  {
  }

  lemma RecordEnds(ctx: Context, skip: bool, w: seq<byte>)
    ensures Midway(true, ctx, 0, 0, skip, w) == Run([], [], Eof(w))
  {
  }

  lemma HeaderComplete(ctx: Context, skip: bool, header: seq<byte>, w: seq<byte>)
    requires |header| == HEADER_LEN
    ensures Comes(false, ctx, 0, 0, skip, header + w) == AfterHeader(ctx, skip, ParseHeader(header), w)
  {
  }

  lemma RepliesTwice(a: seq<Record>, b: seq<Record>, r: Run)
    ensures Replies(a, Replies(b, r)) == Replies(a + b, r)
  {
  }

  /** Two reads in a row. */
  lemma ThenRead(q1: seq<Record>, a: seq<byte>, q2: seq<Record>, b: seq<byte>, r: Run)
    ensures Replies(q1, Emit(a, Replies(q2, Emit(b, r)))) == Replies(q1 + q2, Emit(a + b, r))
    ensures Replies(q1, Emit(a, Replies(q2, r))) == Replies(q1 + q2, Emit(a, r))
  {
    Assoc(q1, q2, r.replies);
    Assoc(a, b, r.bytes);
  }

  lemma SamePass(ctx: Context, skip: bool, w: seq<byte>)
    ensures Midway(false, ctx, 0, 0, skip, w) == Comes(false, ctx, 0, 0, skip, w)
  {
  }

  // ---------------------------------------------------------------- the answers

  /** Every answer is a record its header can carry. */
  lemma {:induction false} RepliesAreLegal(ctx: Context, cLen: nat, pad: nat, skip: bool, rest: seq<byte>)
    ensures AllLegal(Future(ctx, cLen, pad, skip, rest).replies)
    decreases |rest|, 0
  {
    if (cLen > 0 || pad > 0) && rest != [] {
      var n := if cLen > 0 then Min(cLen, |rest|) else Min(pad, |rest|);
      if cLen > 0 {
        RepliesAreLegal(ctx, cLen - n, pad, skip && n < cLen, rest[n..]);
      } else {
        RepliesAreLegal(ctx, 0, pad - n, skip, rest[n..]);
      }
    } else if cLen == 0 && pad == 0 && |rest| >= HEADER_LEN {
      var h := ParseHeader(rest[..HEADER_LEN]);
      AnswersAreLegal(ctx, skip, h, rest[HEADER_LEN..]);
    }
  }

  lemma {:induction false} AnswersAreLegal(ctx: Context, skip: bool, h: Header, body: seq<byte>)
    requires h.id < 65536
    ensures AllLegal(AfterHeader(ctx, skip, h, body).replies)
    decreases |body|, 2
  {
    hide Future, ValuesResult, Fits;
    RepliesAreLegal(ctx, h.contentLength, h.paddingLength, skip, body);
    RepliesAreLegal(ctx, h.contentLength, h.paddingLength, true, body);
    if Classify(ctx, h) == Values {
      var n := Nested(EofErrno(ctx), h.contentLength, h.paddingLength, skip, body);
      var es := Entries(Decode(n.bytes).pairs);
      if Fits(es) {
        FittingIsLegal(es);
      }
      if n.stop.Eof? {
        RepliesAreLegal(ctx, 0, 0, skip && h.contentLength == 0, n.stop.rest);
      }
    }
  }

  lemma FittingIsLegal(es: seq<seq<byte>>)
    requires Fits(es)
    ensures Legal(ValuesResult(es))
  {
    hide Fits, Answers, EncodePairs;
    AnswerFits(es);
  }
}
