/**
  The input stream of a request: a record demultiplexer over one bounded buffer, with the
  byte, block and pushback reads that applications make on it.
 */
module InputStream {
  import opened Seqs
  import opened Protocol
  import opened NameValue
  import opened Environment
  import opened Management
  import opened Connection
  import opened ReaderSpec

  const STREAM_RECORD := 0
  const SKIP := 1
  const BEGIN_RECORD := 2
  const MGMT_RECORD := 3

  /** The code SetError is given when the connection ends. */
  function EofCode(endErrno: nat): (c: int)
    ensures c != 0
  {
    if endErrno == 0 then PROTOCOL_ERROR else endErrno
  }

  /** A connection that ends, or fails, before a whole header has come. */
  lemma HangUp(ctx: Context, endErrno: nat, skip: bool, w: seq<byte>)
    requires ctx.errno == 0 && ctx.eofCode == EofCode(endErrno) && |w| < 8
    ensures Future(ctx, 0, 0, skip, w) == Run([], [], Failed(if endErrno == 0 then -3 else endErrno))
  {
  }

  /** A point in a run of reads: what is promised from there on, and what had been written before it. */
  datatype Mark = Mark(run: Run, sent: seq<Record>, tail: seq<byte>, errno: int)

  /**
    Between two marks on an open stream the bytes `w` have been delivered; inside one record
    they are the next bytes of the connection.
   */
  predicate Passed(nested: bool, m: Mark, w: seq<byte>, m': Mark) {
    && m.sent <= m'.sent && m'.errno == m.errno
    && m.run == Replies(m'.sent[|m.sent|..], Emit(w, m'.run))
    && (nested ==> m.tail == w + m'.tail)
  }

  /** From the mark `m` on the peer has been sent its due, up to `sent`, and `r` is what still comes. */
  predicate Awaits(m: Mark, sent: seq<Record>, r: Run) {
    m.sent <= sent && m.run == Replies(sent[|m.sent|..], r)
  }

  lemma PassedRun(nested: bool, m: Mark, w: seq<byte>, m': Mark)
    requires Passed(nested, m, w, m')
    ensures m.run.bytes == w + m'.run.bytes && m.run.stop == m'.run.stop
  {
  }

  lemma PassedNothing(nested: bool, m: Mark)
    ensures Passed(nested, m, [], m)
  {
  }

  /** The first part of what has been delivered is handed over. */
  lemma PassedPart(nested: bool, d: seq<byte>, e: seq<byte>, c: Run, sent: seq<Record>, t: seq<byte>, errno: int)
    ensures Passed(nested, Mark(Emit(d + e, c), sent, d + t, errno), d, Mark(Emit(e, c), sent, t, errno))
  {
  }

  lemma PassedTwice(nested: bool, m: Mark, a: seq<byte>, m1: Mark, b: seq<byte>, m2: Mark)
    requires Passed(nested, m, a, m1) && Passed(nested, m1, b, m2)
    ensures Passed(nested, m, a + b, m2)
  {
  }

  /**
    However the same number of bytes has been read from a mark, by bytes or in blocks, they
    are the same bytes and leave the same stream and the same total of answers.
   */
  lemma SameReading(nested: bool, m: Mark, a: seq<byte>, m1: Mark, b: seq<byte>, m2: Mark)
    requires Passed(nested, m, a, m1) && Passed(nested, m, b, m2) && |a| == |b|
    ensures a == b && m1.run.bytes == m2.run.bytes && m1.run.stop == m2.run.stop
    ensures m1.sent + m1.run.replies == m2.sent + m2.run.replies
  {
    Seam(a, m1.run.bytes);
    Seam(b, m2.run.bytes);
    SplitAt(m1.sent, |m.sent|);
    SplitAt(m2.sent, |m.sent|);
    assert m1.sent[..|m.sent|] == m.sent && m2.sent[..|m.sent|] == m.sent;
    Assoc(m.sent, m1.sent[|m.sent|..], m1.run.replies);
    Assoc(m.sent, m2.sent[|m.sent|..], m2.run.replies);
  }

  /** What the peer will yet send, and the reader's place in the buffer. */
  datatype Supply = Supply(inbound: seq<byte>, buffStop: nat, rdNext: nat)

  /**
    Between two points nothing has been read and the reader has moved on in the buffer, or
    something has; an eager read of what fits the buffer leaves nothing to read.
   */
  predicate Drawn(eager: bool, size: nat, a: Supply, b: Supply) {
    if b.inbound == a.inbound then b.buffStop == a.buffStop && a.rdNext <= b.rdNext
    else |b.inbound| < |a.inbound| && (eager && |a.inbound| <= size ==> b.inbound == [] && b.buffStop == |a.inbound|)
  }

  /** What ProcessHeader leaves behind. */
  datatype Verdicts = Verdicts(status: int, errno: int, cLen: nat, pad: nat, skip: bool, tail: seq<byte>, id: int,
                               keep: bool, role: int)

  /** Its verdict and the state it leaves, `q` having been written, account for the run `r`. */
  predicate Accounts(x: Verdicts, r: Run, ctx: Context, q: seq<Record>) {
    && (x.status < 0 || x.status == BEGIN_RECORD || (x.status == STREAM_RECORD && x.cLen == 0) ==>
          x.id == IdAfter(ctx.id, r))
    && if x.status == BEGIN_RECORD then
      x.id >= 0 && x.role >= 0 && q == [] && r == Run([], [], Began(x.id, x.keep, x.role, x.tail))
    else if x.status == OVERRUN then
      q == [] && x.errno == 0 && r == Run([], [], Overrun)
    else if x.status < 0 then
      && q == [] && r.bytes == [] && r.replies == []
      && (r.stop.Failed? || r.stop.Cut?) && r.stop.errno == FirstError(x.errno, x.status)
    else if x.status == STREAM_RECORD && x.cLen == 0 then
      q == [] && r == Run([], [], Eof(x.tail))
    else
      r == Replies(q, Future(ctx, x.cLen, x.pad, x.status == SKIP || x.skip, x.tail))
  }

  /** The same, with what has been written to the peer, and how far back a pushback may go. */
  datatype Spot = Spot(sent: seq<Record>, unget: nat, supply: Supply)

  /** Something has been written, or nothing but the reader's place has changed. */
  predicate Calm(eager: bool, size: nat, a: Spot, b: Spot) {
    |b.sent| > |a.sent| || (b.sent == a.sent && b.unget == a.unget && Drawn(eager, size, a.supply, b.supply))
  }

  lemma CalmNone(eager: bool, size: nat, a: Spot)
    ensures Calm(eager, size, a, a)
  {
  }

  lemma CalmTwice(eager: bool, size: nat, a: Spot, b: Spot, c: Spot)
    requires Calm(eager, size, a, b) && Calm(eager, size, b, c)
    ensures Calm(eager, size, a, c)
  {
  }

  lemma CalmOn(eager: bool, size: nat, a: Spot, b: Spot, rdNext: nat)
    requires Calm(eager, size, a, b) && b.supply.rdNext <= rdNext
    ensures Calm(eager, size, a, b.(supply := b.supply.(rdNext := rdNext)))
  {
  }

  class Reader {
    const link: Link
    const buff: array<byte>

    /** rdNext..stop is delivered and unread; stop..buffStop has been read but not yet sorted. */
    var rdNext: nat
    var stop: nat
    var buffStop: nat
    var stopUnget: nat

    var rtype: int
    var eorStop: bool
    var skip: bool
    var contentLen: nat
    var paddingLen: nat

    var isClosed: bool
    var errno: int

    // ---------------------------------------------------------------- abstraction

    ghost predicate Bounds()
      reads this
    {
      0 < buff.Length && rdNext <= buffStop <= buff.Length
    }

    ghost predicate Shape()
      reads this, link
    {
      Bounds() && link.Synced() && (!isClosed ==> rdNext <= stop <= buffStop)
    }

    /** Between the client's calls: delivered bytes may be pushed back down to stopUnget. */
    ghost predicate Valid()
      reads this, link
    {
      Shape() && (!isClosed && rdNext < stop ==> stopUnget <= rdNext)
    }

    ghost function Ctx(): Context
      reads this, link
    {
      Context(rtype, link.requestId, link.isBeginProcessed, errno, EofCode(link.endErrno))
    }

    /** The bytes from buffer position `at` to the end of the connection. */
    ghost function Tail(at: nat): seq<byte>
      requires at <= buffStop <= buff.Length
      reads this, link, buff
    {
      buff[at..buffStop] + link.inbound
    }

    /** What the stream makes of `w`, given what the current record still owes. */
    ghost function Coming(w: seq<byte>): Run
      reads this, link
    {
      Comes(eorStop, Ctx(), contentLen, paddingLen, skip, w)
    }

    /** As Coming, in the middle of a pass. */
    ghost function Half(w: seq<byte>): Run
      reads this, link
    {
      Midway(eorStop, Ctx(), contentLen, paddingLen, skip, w)
    }

    /** Everything a client that reads on will ever see. */
    ghost function Unread(): Run
      requires Shape() && !isClosed
      reads this, link, buff
    {
      Emit(buff[rdNext..stop], Coming(Tail(stop)))
    }

    ghost function Here(): Mark
      requires Shape() && !isClosed
      reads this, link, buff
    {
      Mark(Unread(), link.sent, Tail(rdNext), errno)
    }

    /** The stream is closed because the run `r` ended, its error being `errno0` before that. */
    ghost predicate Ended(r: Run, errno0: int)
      requires Bounds()
      reads this, link, buff
    {
      match r.stop
      case Eof(rest) => Tail(rdNext) == rest && errno == errno0 && (eorStop ==> contentLen == 0 && paddingLen == 0)
      case Failed(code) => errno == code
      case Cut(_, code) => errno == code
      case Overrun => errno == OVERRUN
      case Began(_, _, _, _) => false
    }

    /** Since the mark `m` the bytes `w` have been delivered. */
    ghost predicate After(m: Mark, w: seq<byte>)
      requires Shape()
      reads this, link, buff
    {
      && m.sent <= link.sent
      && if isClosed then
           m.run.bytes == w && m.run.replies == link.sent[|m.sent|..] && Ended(m.run, m.errno)
         else
           Passed(eorStop, m, w, Here())
    }

    // ---------------------------------------------------------------- what calls leave alone

    twostate predicate Held()
      requires Bounds() && old(Bounds())
      reads this, link, buff
    {
      && rtype == old(rtype) && eorStop == old(eorStop)
      && link.endErrno == old(link.endErrno)
      && link.appStatus == old(link.appStatus) && link.nWriters == old(link.nWriters)
      && (old(link.writeFailed) ==> link.writeFailed)
      && (old(errno) != 0 ==> errno == old(errno))
      && |Tail(rdNext)| <= |old(Tail(rdNext))|
    }

    twostate predicate KeptRequest()
      reads link
    {
      && link.requestId == old(link.requestId) && link.role == old(link.role)
      && link.keepConnection == old(link.keepConnection)
      && link.isBeginProcessed == old(link.isBeginProcessed)
    }

    /** Nothing has been written to the peer. */
    twostate predicate Quiet()
      reads link
    {
      && link.sent == old(link.sent) && link.outbound == old(link.outbound)
      && link.writeFailed == old(link.writeFailed)
    }

    /** A read keeps the request it belongs to; under eorStop it also keeps silent. */
    twostate predicate Kept()
      requires Bounds() && old(Bounds())
      reads this, link, buff
    {
      && Held()
      && (old(eorStop || link.isBeginProcessed) ==> KeptRequest())
      && (old(eorStop) ==> Quiet() && (skip && contentLen == 0) == old(skip && contentLen == 0))
    }

    ghost function Place(): Spot
      reads this, link
    {
      Spot(link.sent, stopUnget, Supply(link.inbound, buffStop, rdNext))
    }

    // ---------------------------------------------------------------- creation

    /** NewReader. */
    constructor (link: Link, bufflen: nat, rtype: int)
      requires link.Synced() && bufflen > 0
      ensures this.link == link && this.rtype == rtype && fresh(buff) && buff.Length == bufflen
      ensures Valid() && !isClosed && rdNext == stop && !eorStop && !skip
      ensures contentLen == 0 && paddingLen == 0 && errno == 0
      ensures Tail(stop) == link.inbound
    {
      this.link, this.rtype := link, rtype;
      buff := new byte[bufflen];
      rdNext, stop, buffStop, stopUnget := 0, 0, 0, 0;
      eorStop, skip, contentLen, paddingLen := false, false, 0, 0;
      isClosed, errno := false, 0;
    }

    method SetError(code: int)
      modifies this`errno, this`isClosed
      ensures isClosed && errno == FirstError(old(errno), code)
      ensures Bounds() ==> Tail(rdNext) == old(Tail(rdNext))
    {
      if errno == 0 {
        errno := code;
      }
      isClosed := true;
    }

    // ---------------------------------------------------------------- FillBuffProc, one pass

    /** The buffer must not be empty: read if it is. */
    method Refill() returns (ok: bool)
      requires Bounds() && !isClosed
      modifies this`rdNext, this`buffStop, this`errno, this`isClosed, link`inbound, buff
      ensures Bounds() && Tail(rdNext) == old(Tail(rdNext))
      ensures Calm(link.eager, buff.Length, old(Place()), Place())
      ensures ok ==> rdNext < buffStop && errno == old(errno) && !isClosed
      ensures !ok ==> isClosed && Tail(rdNext) == [] && errno == FirstError(old(errno), EofCode(link.endErrno))
    {
      if rdNext == buffStop {
        var count := link.Read(buff);
        if count <= 0 {
          SetError(if count == 0 then PROTOCOL_ERROR else link.endErrno);
          return false;
        }
        SplitAt(old(link.inbound), count);
        rdNext := 0;
        buffStop := count;
      }
      return true;
    }

    /** Moving the position in the buffer moves along the bytes to come. */
    lemma TailParts(a: nat, b: nat)
      requires a <= b <= buffStop <= buff.Length
      ensures |Tail(a)| == |Tail(b)| + b - a
      ensures Tail(a)[..b - a] == buff[a..b]
      ensures Tail(a)[b - a..] == Tail(b)
    {
    }

    lemma TailMoves(header: seq<byte>, a: nat, b: nat)
      requires a <= b <= buffStop <= buff.Length
      ensures header + Tail(a) == (header + buff[a..b]) + Tail(b)
      ensures |Tail(a)| == |Tail(b)| + b - a
    {
    }

    /** The part of a pass that deals with content: deliver it, or step over it. */
    method TakeContent() returns (delivered: bool)
      requires rdNext < buffStop <= buff.Length && contentLen > 0
      modifies this`contentLen, this`rdNext, this`stop, this`skip
      ensures Bounds()
      ensures delivered ==>
                && !old(skip) && rdNext == old(rdNext) < stop <= buffStop
                && Emit(buff[rdNext..stop], Coming(Tail(stop))) == old(Coming(Tail(rdNext)))
      ensures !delivered ==>
                && old(rdNext) < rdNext && (contentLen > 0 ==> skip)
                && Half(Tail(rdNext)) == old(Coming(Tail(rdNext)))
      ensures !(skip && contentLen == 0)
    {
      hide Comes, Midway;
      ghost var w, ctx := Tail(rdNext), Ctx();
      var count := Min(contentLen, buffStop - rdNext);
      TailParts(rdNext, rdNext + count);
      if !skip {
        DeliverStep(eorStop, ctx, contentLen, paddingLen, w, count);
        contentLen := contentLen - count;
        stop := rdNext + count;
        return true;
      }
      if count < contentLen {
        SkipPartStep(eorStop, ctx, contentLen, paddingLen, w, count);
      } else {
        SkipStep(eorStop, ctx, contentLen, paddingLen, w, count);
      }
      contentLen := contentLen - count;
      rdNext := rdNext + count;
      if contentLen == 0 {
        skip := false;
      }
      return false;
    }

    /** The part of a pass that steps over padding. */
    method TakePadding()
      requires Bounds() && contentLen == 0
      modifies this`paddingLen, this`rdNext
      ensures Bounds() && old(rdNext) <= rdNext
      ensures paddingLen > 0 ==> rdNext == buffStop
      ensures old(rdNext) < buffStop && old(paddingLen) > 0 ==> old(rdNext) < rdNext
      ensures Half(Tail(rdNext)) == old(Half(Tail(rdNext)))
    {
      hide Comes, Midway;
      var count := Min(paddingLen, buffStop - rdNext);
      TailParts(rdNext, rdNext + count);
      PaddingStep(eorStop, Ctx(), paddingLen, skip, Tail(rdNext), count);
      paddingLen := paddingLen - count;
      rdNext := rdNext + count;
    }

    /** The state between two passes, with the header bytes collected so far. */
    ghost predicate Pass(header: seq<byte>)
      reads this, link
    {
      && Bounds() && !isClosed && link.Synced()
      && |header| <= HEADER_LEN
      && (header != [] ==> !eorStop && contentLen == 0 && paddingLen == 0)
    }

    /** The call returns, having told its client what `r` begins with. */
    ghost predicate Told(r: Run, errno0: int)
      requires Shape()
      reads this, link, buff
    {
      if isClosed then r.bytes == [] && r.replies == [] && Ended(r, errno0) && !r.stop.Cut?
      else rdNext < stop && r == Unread() && errno == errno0
    }

    /** One pass up to, and not including, the interpretation of a complete header. */
    method Gather(header: seq<byte>) returns (out: seq<byte>, told: bool)
      requires Pass(header) && |header| < HEADER_LEN
      modifies this, link`inbound, buff
      ensures Bounds() && Held() && link.Synced() && Calm(link.eager, buff.Length, old(Place()), Place())
      ensures eorStop ==> (skip && contentLen == 0) == old(skip && contentLen == 0)
      ensures told ==> Shape() && Told(old(Coming(header + Tail(rdNext))), old(errno))
      ensures told && !isClosed ==>
                !old(skip) && old(contentLen) > 0 && Tail(rdNext) == old(Tail(rdNext)) && rdNext < stop
                && errno == old(errno)
      ensures !told ==>
                && Pass(out) && errno == old(errno) && |Tail(rdNext)| < |old(Tail(rdNext))|
                && (eorStop ==> contentLen == 0 || skip)
                && Coming(out + Tail(rdNext)) == old(Coming(header + Tail(rdNext)))
    {
      hide Comes, Midway, Calm;
      ghost var here := Place();
      var ok := Refill();
      if !ok {
        Unit(header);
        ComesToAnEnd(eorStop, old(Ctx()), contentLen, paddingLen, skip, header);
        return [], true;
      }
      ghost var read := Place();
      out, told := Sort(header);
      CalmOn(link.eager, buff.Length, here, read, rdNext);
    }

    /** The same when the buffer is not empty. */
    method Sort(header: seq<byte>) returns (out: seq<byte>, told: bool)
      requires Pass(header) && |header| < HEADER_LEN && rdNext < buffStop
      modifies this`contentLen, this`paddingLen, this`rdNext, this`stop, this`skip, this`isClosed
      ensures Bounds() && |Tail(rdNext)| <= |old(Tail(rdNext))| && old(rdNext) <= rdNext
      ensures eorStop ==> (skip && contentLen == 0) == old(skip && contentLen == 0)
      ensures told ==> Shape() && Told(old(Coming(header + Tail(rdNext))), errno)
      ensures told && !isClosed ==> !old(skip) && old(contentLen) > 0 && rdNext == old(rdNext) < stop
      ensures !told ==>
                && Pass(out) && |Tail(rdNext)| < |old(Tail(rdNext))|
                && (eorStop ==> contentLen == 0 || skip)
                && Coming(out + Tail(rdNext)) == old(Coming(header + Tail(rdNext)))
    {
      hide Comes, Midway;
      if contentLen > 0 {
        Unit(Tail(rdNext));
        var delivered := TakeContent();
        Unit(Tail(rdNext));
        if delivered {
          return [], true;
        }
        if contentLen > 0 {
          PassBoundary(eorStop, Ctx(), contentLen, paddingLen, skip, Tail(rdNext));
          return [], false;
        }
        out, told := GatherRest([]);
      } else {
        PassBoundary(eorStop, Ctx(), contentLen, paddingLen, skip, header + Tail(rdNext));
        out, told := GatherRest(header);
      }
    }

    /** The rest of that pass, the content of the current record being done with. */
    method GatherRest(header: seq<byte>) returns (out: seq<byte>, told: bool)
      requires Pass(header) && |header| < HEADER_LEN && contentLen == 0
      modifies this`paddingLen, this`rdNext, this`stop, this`isClosed
      ensures Bounds() && |Tail(rdNext)| <= |old(Tail(rdNext))| && old(rdNext) <= rdNext
      ensures told ==> isClosed && eorStop && Shape() && Told(old(Half(header + Tail(rdNext))), errno)
      ensures !told ==>
                && Pass(out)
                && (old(rdNext) < buffStop ==> |Tail(rdNext)| < |old(Tail(rdNext))|)
                && Coming(out + Tail(rdNext)) == old(Half(header + Tail(rdNext)))
    {
      hide Comes, Midway;
      if paddingLen > 0 {
        Unit(Tail(rdNext));
        TakePadding();
        Unit(Tail(rdNext));
        if paddingLen > 0 {
          PassBoundary(eorStop, Ctx(), contentLen, paddingLen, skip, Tail(rdNext));
          return [], false;
        }
      }
      if eorStop {
        Unit(Tail(rdNext));
        RecordEnds(Ctx(), skip, Tail(rdNext));
        stop := rdNext;
        isClosed := true;
        return [], true;
      }
      out := GatherHeader(header);
      SamePass(Ctx(), skip, out + Tail(rdNext));
      return out, false;
    }

    /** Fills the header with bytes from the buffer. */
    method GatherHeader(header: seq<byte>) returns (out: seq<byte>)
      requires Bounds() && |header| < HEADER_LEN
      modifies this`rdNext
      ensures Bounds() && |out| <= HEADER_LEN && out + Tail(rdNext) == header + old(Tail(rdNext))
      ensures rdNext == old(rdNext) + |out| - |header| && |Tail(rdNext)| == |old(Tail(rdNext))| - (rdNext - old(rdNext))
      ensures |out| == HEADER_LEN || rdNext == buffStop
      ensures old(rdNext) < buffStop ==> rdNext > old(rdNext)
    {
      var count := Min(HEADER_LEN - |header|, buffStop - rdNext);
      TailMoves(header, rdNext, rdNext + count);
      out := header + buff[rdNext..rdNext + count];
      rdNext := rdNext + count;
    }

    // ---------------------------------------------------------------- FillBuffProc

    /** From the mark `m` on, the peer has been sent its due and `r` is what still comes. */
    ghost predicate Expects(m: Mark, r: Run)
      reads link
    {
      Awaits(m, link.sent, r)
    }

    /** The call returns: BEGIN_REQUEST was processed, or the stream has delivered or ended. */
    ghost predicate Filled(m: Mark)
      requires Shape()
      reads this, link, buff
    {
      if !isClosed && rdNext == stop then
        && m.sent <= link.sent
        && link.isBeginProcessed && link.requestId >= 0 && link.role >= 0
        && m.run == Run([], link.sent[|m.sent|..], Began(link.requestId, link.keepConnection, link.role, Tail(rdNext)))
      else
        After(m, [])
    }

    /** FillBuffProc: passes over the buffer until there is something to tell the client. */
    method FillBuffProc()
      requires Shape() && !isClosed && rdNext == stop
      modifies this, link, buff
      ensures Shape() && Kept()
      ensures !isClosed ==> errno == old(errno) && (old(eorStop || link.isBeginProcessed) ==> rdNext < stop)
      ensures link.isBeginProcessed && !old(link.isBeginProcessed) ==>
                !isClosed && (!link.writeFailed ==> rdNext == stop)
      ensures !link.writeFailed ==> Filled(old(Here())) && link.requestId == IdAfter(old(link.requestId), old(Unread()))
      ensures link.writeFailed && !old(link.writeFailed) ==> link.requestId == old(link.requestId)
      ensures !link.writeFailed && (if isClosed then errno == 0 else rdNext < stop) ==>
                Calm(link.eager, buff.Length, old(Place()), Place())
      decreases if eorStop then 0 else 11, 1
    {
      hide Comes, Midway, Passed, Replies, Unread, Ended, Tail, Calm, Awaits, Filled, IdAfter;
      ghost var here := Place();
      CalmNone(link.eager, buff.Length, here);
      ghost var m := Here();
      NothingDelivered();
      var header: seq<byte> := [];
      while true
        invariant Pass(header) && |header| < HEADER_LEN && Kept() && KeptRequest() && errno == old(errno)
        invariant link.writeFailed == old(link.writeFailed)
        invariant eorStop && contentLen > 0 && !skip ==> Tail(rdNext) == m.tail
        invariant !link.writeFailed ==> Expects(m, Coming(header + Tail(rdNext)))
        invariant Calm(link.eager, buff.Length, here, Place())
        decreases |Tail(rdNext)|
      {
        var told;
        header, told := Turn(header, m, here);
        if told {
          return;
        }
      }
    }

    /** One pass, with the interpretation of the header if that is complete. */
    method Turn(header: seq<byte>, ghost m: Mark, ghost here: Spot) returns (out: seq<byte>, told: bool)
      requires Pass(header) && |header| < HEADER_LEN && errno == m.errno && Calm(link.eager, buff.Length, here, Place())
      requires eorStop && contentLen > 0 && !skip ==> Tail(rdNext) == m.tail
      requires !link.writeFailed ==> Expects(m, Coming(header + Tail(rdNext)))
      modifies this, link, buff
      ensures Bounds() && Held() && link.Synced()
      ensures old(eorStop || link.isBeginProcessed) || !told ==> KeptRequest()
      ensures link.writeFailed && !old(link.writeFailed) ==> link.requestId == old(link.requestId)
      ensures !told ==> link.writeFailed == old(link.writeFailed)
      ensures old(eorStop) ==> Quiet() && (skip && contentLen == 0) == old(skip && contentLen == 0)
      ensures told ==>
                && Shape()
                && (!isClosed ==> errno == old(errno) && (old(eorStop || link.isBeginProcessed) ==> rdNext < stop))
                && (link.isBeginProcessed && !old(link.isBeginProcessed) ==>
                      !isClosed && (!link.writeFailed ==> rdNext == stop))
                && (!link.writeFailed ==> Filled(m) && link.requestId == IdAfter(old(link.requestId), m.run))
                && (!link.writeFailed && (if isClosed then errno == 0 else rdNext < stop) ==>
                      Calm(link.eager, buff.Length, here, Place()))
      ensures !told ==>
                && Pass(out) && |out| < HEADER_LEN && errno == old(errno) && |Tail(rdNext)| < |old(Tail(rdNext))|
                && (eorStop ==> contentLen == 0 || skip)
                && (!link.writeFailed ==> Expects(m, Coming(out + Tail(rdNext))))
                && Calm(link.eager, buff.Length, here, Place())
      decreases if eorStop then 0 else 11, 0
    {
      hide Comes, Midway, Passed, Replies, Unread, Ended, Tail, Calm, Awaits, Filled, IdAfter, Told;
      ghost var r, there := Coming(header + Tail(rdNext)), Place();
      out, told := Gather(header);
      CalmTwice(link.eager, buff.Length, here, there, Place());
      if told {
        if !link.writeFailed {
          ToldThen(m, r);
        }
        return;
      }
      if |out| == HEADER_LEN {
        told := Conclude(out, m, here);
        Unit(Tail(rdNext));
        out := [];
      }
    }

    /** The end of a pass that has completed a header. */
    method Conclude(header: seq<byte>, ghost m: Mark, ghost here: Spot) returns (told: bool)
      requires Pass(header) && |header| == HEADER_LEN && errno == m.errno
      requires Calm(link.eager, buff.Length, here, Place())
      requires !link.writeFailed ==> Expects(m, Coming(header + Tail(rdNext)))
      modifies this, link, buff
      ensures Bounds() && Held() && link.Synced()
      ensures old(link.isBeginProcessed) || !told ==> KeptRequest()
      ensures link.writeFailed && !old(link.writeFailed) ==> link.requestId == old(link.requestId)
      ensures !told ==> link.writeFailed == old(link.writeFailed)
      ensures told ==>
                && Shape()
                && (!isClosed ==> errno == old(errno) && !old(link.isBeginProcessed))
                && (link.isBeginProcessed && !old(link.isBeginProcessed) ==>
                      !isClosed && (!link.writeFailed ==> rdNext == stop))
                && (!link.writeFailed ==> Filled(m) && link.requestId == IdAfter(old(link.requestId), m.run))
                && (!link.writeFailed && (if isClosed then errno == 0 else rdNext < stop) ==>
                      Calm(link.eager, buff.Length, here, Place()))
      ensures !told ==>
                && Pass([]) && errno == old(errno)
                && (!link.writeFailed ==> Expects(m, Coming(Tail(rdNext))))
                && Calm(link.eager, buff.Length, here, Place())
      decreases 10, 1
    {
      hide Comes, Midway, Passed, Replies, Unread, Ended, Tail, Calm, Awaits, Filled, IdAfter;
      ghost var m1, there := Mark(Coming(header + Tail(rdNext)), link.sent, [], m.errno), Place();
      told := Interpret(header);
      if !told || (isClosed && errno == 0) {
        CalmTwice(link.eager, buff.Length, here, there, Place());
      }
      if !link.writeFailed {
        if told {
          FilledThen(m, m1);
          SameId(m, m1);
        } else {
          ExpectsThen(m, m1, Coming(Tail(rdNext)));
        }
      }
    }

    lemma NothingDelivered()
      requires Shape() && !isClosed && rdNext == stop
      ensures Expects(Here(), Coming([] + Tail(rdNext)))
      ensures Unread() == Coming(Tail(rdNext))
    {
      hide Comes, Midway;
      assert buff[rdNext..stop] == [] && link.sent[|link.sent|..] == [];
      EmitNothing(Coming(Tail(rdNext)));
      RepliesNothing(Coming(Tail(rdNext)));
      Unit(Tail(rdNext));
    }

    lemma ToldThen(m: Mark, r: Run)
      requires Shape() && Expects(m, r) && Told(r, m.errno)
      requires eorStop && !isClosed ==> Tail(rdNext) == m.tail
      ensures Filled(m) && forall id :: IdAfter(id, m.run) == id
    {
    }

    lemma SameId(m: Mark, m1: Mark)
      requires Awaits(m, m1.sent, m1.run)
      ensures forall id :: IdAfter(id, m.run) == IdAfter(id, m1.run)
    {
    }

    lemma ExpectsThen(m: Mark, m1: Mark, c: Run)
      requires Awaits(m, m1.sent, m1.run) && Expects(m1, c)
      ensures Expects(m, c)
    {
    }

    lemma FilledThen(m: Mark, m1: Mark)
      requires Shape() && !eorStop && m.errno == m1.errno
      requires Awaits(m, m1.sent, m1.run) && Filled(m1)
      ensures Filled(m)
    {
      hide Comes, Midway;
      SuffixJoin(m.sent, m1.sent, link.sent);
      if !isClosed && rdNext < stop {
        RepliesTwice(m1.sent[|m.sent|..], link.sent[|m1.sent|..], Emit([], Unread()));
      }
    }

    /** The end of a pass: the complete header is interpreted, under eorStop. */
    method Interpret(header: seq<byte>) returns (told: bool)
      requires Pass(header) && |header| == HEADER_LEN
      modifies this, link, buff
      ensures Bounds() && Held() && link.Synced()
      ensures old(link.isBeginProcessed) || !told ==> KeptRequest()
      ensures !told || (isClosed && errno == 0) ==> Calm(link.eager, buff.Length, old(Place()), Place())
      ensures told && !isClosed && rdNext < stop ==> link.writeFailed
      ensures told && !link.writeFailed ==>
                link.requestId == IdAfter(old(link.requestId), old(Coming(header + Tail(rdNext))))
      ensures link.writeFailed && !old(link.writeFailed) ==> link.requestId == old(link.requestId)
      ensures !told ==> link.writeFailed == old(link.writeFailed)
      ensures told ==>
                && Shape()
                && (!isClosed ==> errno == old(errno) && !old(link.isBeginProcessed))
                && (link.isBeginProcessed && !old(link.isBeginProcessed) ==>
                      !isClosed && (!link.writeFailed ==> rdNext == stop))
                && (!link.writeFailed ==>
                      Filled(Mark(old(Coming(header + Tail(rdNext))), old(link.sent), [], old(errno))))
      ensures !told ==>
                && Pass([]) && errno == old(errno)
                && (!link.writeFailed ==>
                      Expects(Mark(old(Coming(header + Tail(rdNext))), old(link.sent), [], old(errno)),
                              Coming(Tail(rdNext))))
      decreases 10, 0
    {
      hide Comes, Midway, AfterHeader, Future, Unread, Passed, ParseHeader, Replies, Calm, Accounts, Filled, Awaits;
      ghost var m, ctx, w := Mark(Coming(header + Tail(rdNext)), link.sent, [], errno), Ctx(), Tail(rdNext);
      HeaderComplete(ctx, skip, header, w);
      eorStop := true;
      stop := rdNext;
      var status := ProcessHeader(header);
      ghost var x := Sorting(status);
      told := Settle(status);
      if !link.writeFailed {
        Settled(x, ctx, m);
      }
    }

    /** What the client is told, or what the next pass goes on from, accounts for the run as well. */
    lemma Settled(x: Verdicts, ctx: Context, m: Mark)
      requires Bounds() && link.Synced() && !eorStop && m.sent <= link.sent
      requires Accounts(x, m.run, ctx, link.sent[|m.sent|..])
      requires Tail(rdNext) == x.tail && contentLen == x.cLen && paddingLen == x.pad
      requires skip == (x.skip || x.status == SKIP)
      requires link.requestId == x.id && link.keepConnection == x.keep && link.role == x.role
      requires errno == if x.status < 0 then FirstError(x.errno, x.status) else x.errno
      requires x.status <= MGMT_RECORD && (x.status >= 0 ==> x.errno == m.errno)
      requires isClosed == (x.status < 0 || (x.status == STREAM_RECORD && x.cLen == 0))
      requires x.status == BEGIN_RECORD ==> link.isBeginProcessed && rdNext == stop
      ensures isClosed || x.status == BEGIN_RECORD ==> Shape() && Filled(m) && link.requestId == IdAfter(ctx.id, m.run)
      ensures !isClosed && x.status != BEGIN_RECORD && Ctx() == ctx ==> Expects(m, Coming(Tail(rdNext)))
    {
      hide Midway, AfterHeader, Future, Unread, Passed, Replies;
    }

    /** What FillBuffProc makes of ProcessHeader's verdict. */
    method Settle(status: int) returns (told: bool)
      requires Bounds() && status <= MGMT_RECORD
      modifies this`eorStop, this`isClosed, this`stop, this`skip, this`errno
      ensures !eorStop && Tail(rdNext) == old(Tail(rdNext)) && Place() == old(Place())
      ensures told == (status < 0 || status == BEGIN_RECORD || (status == STREAM_RECORD && contentLen == 0))
      ensures isClosed == (told && status != BEGIN_RECORD)
      ensures stop == if status == STREAM_RECORD && contentLen == 0 then rdNext else old(stop)
      ensures skip == (old(skip) || status == SKIP)
      ensures errno == if status < 0 then FirstError(old(errno), status) else old(errno)
    {
      eorStop := false;
      isClosed := false;
      if status == STREAM_RECORD {
        if contentLen == 0 {
          stop := rdNext;
          isClosed := true;
          return true;
        }
      } else if status == SKIP {
        skip := true;
      } else if status == BEGIN_RECORD {
        return true;
      } else if status != MGMT_RECORD {
        SetError(status);
        return true;
      }
      return false;
    }

    // ---------------------------------------------------------------- ProcessHeader

    /** ProcessHeader's verdict, and the state it leaves. */
    ghost function Sorting(status: int): Verdicts
      requires Bounds()
      reads this, link, buff
    {
      Verdicts(status, errno, contentLen, paddingLen, skip, Tail(rdNext), link.requestId, link.keepConnection,
               link.role)
    }

    /** They account for the run `r`. */
    ghost predicate Sorted(status: int, r: Run, ctx: Context, sent0: seq<Record>)
      requires Bounds()
      reads this, link, buff
    {
      && sent0 <= link.sent && Accounts(Sorting(status), r, ctx, link.sent[|sent0|..])
      && (status == BEGIN_RECORD ==> link.isBeginProcessed && rdNext == stop)
    }

    method ProcessHeader(header: seq<byte>) returns (status: int)
      requires Shape() && !isClosed && rdNext == stop && eorStop
      requires |header| == HEADER_LEN && contentLen == 0 && paddingLen == 0
      modifies this, link, buff
      ensures Bounds() && Held() && link.Synced()
      ensures status <= MGMT_RECORD
      ensures status >= 0 ==> errno == old(errno)
      ensures status == BEGIN_RECORD ==> !old(link.isBeginProcessed) && rdNext <= stop <= buffStop
      ensures status != BEGIN_RECORD ==> link.isBeginProcessed == old(link.isBeginProcessed)
      ensures old(link.isBeginProcessed) || (status >= 0 && status != BEGIN_RECORD) ==> KeptRequest()
      ensures link.writeFailed && !old(link.writeFailed) ==> link.requestId == old(link.requestId)
      ensures status >= 0 ==> link.writeFailed == old(link.writeFailed)
      ensures status >= 0 && status != BEGIN_RECORD ==> Calm(link.eager, buff.Length, old(Place()), Place())
      ensures !link.writeFailed ==>
                Sorted(status, AfterHeader(old(Ctx()), old(skip), ParseHeader(header), old(Tail(rdNext))), old(Ctx()),
                       old(link.sent))
      decreases 9
    {
      hide Comes, Midway, Future, AfterBegin, AfterValues, Nested;
      ghost var body := Tail(rdNext);
      var h := ParseHeader(header);
      if h.version != VERSION_1 {
        NothingSent();
        return UNSUPPORTED_VERSION;
      }
      contentLen := h.contentLength;
      paddingLen := h.paddingLength;
      if h.rtype == BEGIN_REQUEST {
        status := ProcessBeginRecord(h.id);
      } else if h.id == NULL_REQUEST_ID {
        status := ProcessManagementRecord(h.rtype);
      } else {
        NothingSent();
        RepliesNothing(Future(Ctx(), contentLen, paddingLen, true, body));
        RepliesNothing(Future(Ctx(), contentLen, paddingLen, skip, body));
        if h.id != link.requestId {
          return SKIP;
        }
        if h.rtype != rtype {
          return PROTOCOL_ERROR;
        }
        return STREAM_RECORD;
      }
    }

    lemma NothingSent()
      ensures link.sent[|link.sent|..] == []
    {
    }

    method ProcessBeginRecord(requestId: nat) returns (status: int)
      requires Shape() && !isClosed && rdNext == stop && eorStop
      modifies this, link, buff
      ensures Bounds() && Held() && link.Synced()
      ensures status == BEGIN_RECORD || status == SKIP || status < 0
      ensures status >= 0 ==> errno == old(errno)
      ensures status == BEGIN_RECORD ==> !old(link.isBeginProcessed) && rdNext <= stop <= buffStop
      ensures status != BEGIN_RECORD ==> link.isBeginProcessed == old(link.isBeginProcessed)
      ensures old(link.isBeginProcessed) || status == SKIP ==> KeptRequest()
      ensures link.writeFailed && !old(link.writeFailed) ==> link.requestId == old(link.requestId)
      ensures status >= 0 ==> link.writeFailed == old(link.writeFailed)
      ensures status == SKIP ==> |link.sent| > |old(link.sent)|
      ensures !link.writeFailed ==>
                Sorted(status, AfterBegin(old(Ctx()), requestId, old(contentLen), old(paddingLen), old(skip),
                                          old(Tail(rdNext))),
                       old(Ctx()), old(link.sent))
      decreases 8, 1
    {
      hide Comes, Midway, Future, Nested, BeginBody;
      NothingSent();
      if requestId == 0 || contentLen != 8 {
        return PROTOCOL_ERROR;
      }
      if link.isBeginProcessed {
        // A second request on the same connection is refused.
        var q := EndRequest(requestId, 0, CANT_MPX_CONN);
        Seam(link.sent, [q]);
        var ok := link.WriteRecord(q);
        if !ok {
          var osErrno: nat :| osErrno > 0;
          SetError(osErrno);
          return -1;
        }
        return SKIP;
      }
      link.requestId := requestId;
      status := ReadBeginBody();
    }

    /** The role and the flags of the new request. */
    method ReadBeginBody() returns (status: int)
      requires Shape() && !isClosed && rdNext == stop && eorStop && contentLen == 8
      requires link.requestId > 0 && !link.isBeginProcessed
      modifies this, link, buff
      ensures Bounds() && Held() && Quiet() && link.Synced()
      ensures status == BEGIN_RECORD || status == PROTOCOL_ERROR
      ensures link.requestId == old(link.requestId)
      ensures status != BEGIN_RECORD ==> link.isBeginProcessed == old(link.isBeginProcessed)
      ensures status == BEGIN_RECORD ==> errno == old(errno) && rdNext <= stop <= buffStop
      ensures !link.writeFailed ==>
                var w := old(Tail(rdNext));
                var n := Nested(EofErrno(old(Ctx())), 8, old(paddingLen), old(skip), w);
                Sorted(status, BeginBody(old(errno), old(link.requestId), n, if |w| >= 8 then w[8..] else []),
                       old(Ctx()), old(link.sent))
      decreases 8, 0
    {
      hide Midway, Future, Nested, Passed, Unread;
      NothingSent();
      NothingDelivered();
      ghost var m := Here();
      var body := GetStr(8);
      if |body| != 8 {
        return PROTOCOL_ERROR;
      }
      if !link.writeFailed {
        WholeBody(m, body);
      }
      link.keepConnection := body[2] % 2 == 1;
      link.role := Word(body[0], body[1]);
      link.isBeginProcessed := true;
      return BEGIN_RECORD;
    }

    /** All the bytes the record had have been read. */
    lemma WholeBody(m: Mark, body: seq<byte>)
      requires Shape() && !isClosed && eorStop && After(m, body) && |m.run.bytes| <= |body|
      ensures m.run.bytes == body && rdNext == stop
      ensures |body| <= |m.tail| && m.tail[|body|..] == Tail(rdNext)
      ensures m.sent <= link.sent
    {
    }

    method ProcessManagementRecord(rtype: byte) returns (status: int)
      requires Shape() && !isClosed && rdNext == stop && eorStop
      modifies this, link, buff
      ensures Bounds() && Held() && KeptRequest() && link.Synced()
      ensures status == MGMT_RECORD || status < 0
      ensures status >= 0 ==> errno == old(errno) && |link.sent| > |old(link.sent)|
      ensures status >= 0 ==> link.writeFailed == old(link.writeFailed)
      ensures !link.writeFailed ==>
                var ctx, w := old(Ctx()), old(Tail(rdNext));
                Sorted(status,
                       if rtype == GET_VALUES then AfterValues(ctx, old(contentLen), old(paddingLen), old(skip), w)
                       else Reply(UnknownType(rtype), Future(ctx, old(contentLen), old(paddingLen), old(skip), w)),
                       ctx, old(link.sent))
      decreases 8, 2
    {
      hide Comes, Midway, Future, Nested, Decode, ValuesResult, UnknownType, Unread, Passed, EncodeRecord, EncodeAll,
           AfterValues;
      var reply: Record;
      if rtype == GET_VALUES {
        status, reply := AnswerValues();
        if status < 0 {
          NothingSent();
          return;
        }
      } else {
        reply := UnknownType(rtype);
      }
      Seam(link.sent, [reply]);
      var ok := link.WriteRecord(reply);
      if !ok {
        var osErrno: nat :| osErrno > 0;
        SetError(osErrno);
        return -1;
      }
      return MGMT_RECORD;
    }

    /** The answer to a variable query, unless that is malformed or the answer does not fit. */
    method AnswerValues() returns (status: int, reply: Record)
      requires Shape() && !isClosed && rdNext == stop && eorStop
      modifies this, link, buff
      ensures Bounds() && Held() && KeptRequest() && Quiet() && link.Synced()
      ensures status == 0 || status == PROTOCOL_ERROR || status == OVERRUN
      ensures status >= 0 ==> errno == old(errno)
      ensures !link.writeFailed ==>
                var ctx := old(Ctx());
                var r := AfterValues(ctx, old(contentLen), old(paddingLen), old(skip), old(Tail(rdNext)));
                if status == 0 then r == Reply(reply, Future(ctx, contentLen, paddingLen, skip, Tail(rdNext)))
                else if status == OVERRUN then errno == 0 && r == Run([], [], Overrun)
                else r == Run([], [], Failed(FirstError(errno, status)))
      decreases 8, 1
    {
      hide Comes, Midway, Future, Nested, Decode, ValuesResult, Unread, Passed, EncodeAll, Fits;
      reply := Plain(GET_VALUES_RESULT, NULL_REQUEST_ID, [], 0);
      var params := new Params(3);
      ReadValues(params);
      if errno != 0 || contentLen != 0 {
        return PROTOCOL_ERROR, reply;
      }
      var overrun;
      overrun, reply := ComposeAnswer(params);
      return if overrun then OVERRUN else 0, reply;
    }

    /** The GET_VALUES pairs, read from the rest of the current record. */
    method ReadValues(params: Params)
      requires Shape() && !isClosed && rdNext == stop && eorStop
      requires params.Valid() && params.Contents() == []
      modifies this, link, buff, params, params.vec
      ensures Bounds() && Kept() && link.Synced() && params.Valid()
      ensures !link.writeFailed ==>
                var n := Nested(EofErrno(old(Ctx())), old(contentLen), old(paddingLen), old(skip), old(Tail(rdNext)));
                var d := Decode(n.bytes);
                && errno == ParamsErrno(old(errno), n.stop, d.outcome)
                && (errno == 0 ==>
                      && n.stop == Eof(Tail(rdNext)) && contentLen == 0 && paddingLen == 0
                      && params.Contents() == Entries(d.pairs))
      decreases 8, 0
    {
      hide Midway, Future, Nested, Decode;
      NothingDelivered();
      ghost var n := Unread();
      var rc := ReadParams(params);
      if !link.writeFailed {
        Unit(Entries(Decode(n.bytes).pairs));
      }
    }

    // ---------------------------------------------------------------- the client's reads

    /** A read that follows another, the stream being open between them. */
    lemma ReadThen(m: Mark, a: seq<byte>, m1: Mark, b: seq<byte>)
      requires Shape() && Passed(eorStop, m, a, m1) && After(m1, b)
      ensures After(m, a + b)
    {
      hide Comes, Midway;
      if isClosed {
        SuffixJoin(m.sent, m1.sent, link.sent);
      } else {
        PassedTwice(eorStop, m, a, m1, b, Here());
      }
    }

    lemma AfterNothing(m: Mark)
      requires Shape() && !isClosed && m == Here()
      ensures After(m, [])
    {
      hide Comes, Midway;
      PassedNothing(eorStop, m);
    }

    lemma StillOpen(m: Mark, w: seq<byte>)
      requires Shape() && !isClosed && After(m, w)
      ensures Passed(eorStop, m, w, Here())
    {
    }

    /** What a read says about the bytes that were to come. */
    lemma AfterSays(m: Mark, w: seq<byte>)
      requires Shape() && After(m, w)
      ensures m.run.replies == [] ==> link.sent == m.sent
      ensures isClosed ==> m.run.bytes == w && errno == StopErrno(m.run.stop, m.errno)
      ensures isClosed && m.run.stop.Eof? ==> Tail(rdNext) == m.run.stop.rest
      ensures !isClosed ==> m.run.bytes == w + Unread().bytes && m.run.stop == Unread().stop
    {
      hide Comes, Midway;
      SuffixOf(m.sent, link.sent);
    }

    lemma SlicesJoin(a: nat, b: nat, c: nat)
      requires a <= b <= c <= buff.Length
      ensures buff[a..c] == buff[a..b] + buff[b..c]
    {
    }

    /** Copies `n` delivered bytes out and moves past them. */
    method Take(n: nat) returns (d: seq<byte>)
      requires Valid() && !isClosed && rdNext + n <= stop
      modifies this`rdNext
      ensures Valid() && rdNext == old(rdNext) + n && |d| == n && d == buff[old(rdNext)..rdNext]
      ensures |Tail(rdNext)| == |old(Tail(rdNext))| - n
      ensures After(old(Here()), d)
    {
      hide Comes, Midway, Passed, Emit;
      d := buff[rdNext..rdNext + n];
      TailParts(rdNext, rdNext + n);
      SplitAt(Tail(rdNext), n);
      SlicesJoin(rdNext, rdNext + n, stop);
      PassedPart(eorStop, d, buff[rdNext + n..stop], Coming(Tail(stop)), link.sent, Tail(rdNext + n), errno);
      rdNext := rdNext + n;
    }

    /** The reads' common step: fill, and mark how far back a pushback may go. */
    method Replenish()
      requires Valid() && !isClosed && rdNext == stop && (eorStop || link.isBeginProcessed)
      modifies this, link, buff
      ensures Valid() && Kept()
      ensures !isClosed ==> errno == old(errno) && rdNext < stop && stopUnget == rdNext
      ensures !link.writeFailed && !isClosed ==>
                Calm(link.eager, buff.Length, old(Place()), Place().(unget := old(stopUnget)))
      ensures !link.writeFailed && isClosed && errno == 0 ==> Calm(link.eager, buff.Length, old(Place()), Place())
      ensures !link.writeFailed ==> After(old(Here()), [])
      decreases if eorStop then 1 else 12
    {
      hide Comes, Midway, Passed;
      FillBuffProc();
      if !isClosed {
        stopUnget := rdNext;
      }
    }

    /** FCGX_GetChar. */
    method GetChar() returns (c: int)
      requires Valid() && (eorStop || link.isBeginProcessed)
      modifies this, link, buff
      ensures Valid() && Kept()
      ensures EOF <= c < 256 && (c == EOF <==> isClosed)
      ensures !isClosed ==> errno == old(errno) && stopUnget < rdNext && buff[rdNext - 1] == c
      ensures !isClosed ==> |Tail(rdNext)| < |old(Tail(rdNext))|
      ensures !isClosed && old(rdNext == stop) ==>
                && rdNext == stopUnget + 1
                && (!link.writeFailed ==>
                      Calm(link.eager, buff.Length, old(Place()), Place().(unget := old(stopUnget))))
      ensures !link.writeFailed && isClosed && errno == 0 && !old(isClosed) ==>
                Calm(link.eager, buff.Length, old(Place()), Place())
      ensures old(isClosed) ==> isClosed && errno == old(errno) && Quiet()
      ensures !old(isClosed) && !link.writeFailed ==> After(old(Here()), if c == EOF then [] else [c])
      decreases if eorStop then 2 else 13
    {
      hide Comes, Midway, Passed, Unread, Ended, Tail, Calm;
      ghost var here := Place();
      if isClosed {
        return EOF;
      }
      ghost var m := Here();
      ghost var m1 := m;
      PassedNothing(eorStop, m);
      if rdNext == stop {
        Replenish();
        if isClosed {
          return EOF;
        }
        m1 := Here();
      }
      ghost var read := Place().(unget := here.unget);
      var d := Take(1);
      if !link.writeFailed && old(rdNext == stop) {
        CalmOn(link.eager, buff.Length, here, read, rdNext);
      }
      assert d == [d[0]];
      if !link.writeFailed {
        ReadThen(m, [], m1, d);
        Unit(d);
      }
      c := d[0];
    }

    /** One turn of FCGX_GetStr's loop: what has been delivered, as far as it is wanted, and a fill if more is. */
    method GetPart(n: nat) returns (d: seq<byte>)
      requires Valid() && !isClosed && n > 0 && (eorStop || link.isBeginProcessed)
      modifies this, link, buff
      ensures Valid() && Kept() && |d| <= n && |Tail(rdNext)| + |d| <= |old(Tail(rdNext))|
      ensures !isClosed ==> errno == old(errno) && (|d| == 0 ==> rdNext < stop)
      ensures isClosed ==> |d| < n
      ensures |d| == 0 ==> old(rdNext == stop)
      ensures !link.writeFailed ==> After(old(Here()), d)
      decreases if eorStop then 2 else 13, 0
    {
      hide Comes, Midway, Passed, Unread, Ended, Tail, Calm;
      ghost var m := Here();
      ghost var m1 := m;
      PassedNothing(eorStop, m);
      d := [];
      if rdNext != stop {
        d := Take(Min(n, stop - rdNext));
        if |d| == n {
          return;
        }
        m1 := Here();
      }
      Replenish();
      if !link.writeFailed {
        ReadThen(m, d, m1, []);
        Unit(d);
      }
    }

    /** FCGX_GetStr; the bytes stored through `str` are the result. */
    method GetStr(n: int) returns (s: seq<byte>)
      requires Valid() && (eorStop || link.isBeginProcessed)
      modifies this, link, buff
      ensures Valid() && Kept()
      ensures |s| <= Max(n, 0)
      ensures old(isClosed) ==> s == [] && unchanged(this, link, buff)
      ensures !old(isClosed) ==> (isClosed <==> |s| < n) && |Tail(rdNext)| + |s| <= |old(Tail(rdNext))|
      ensures !isClosed ==> errno == old(errno)
      ensures !old(isClosed) && !link.writeFailed ==> After(old(Here()), s)
      decreases if eorStop then 2 else 13, 1
    {
      hide Comes, Midway, Passed, Unread, Ended, Tail;
      s := [];
      if isClosed {
        return;
      }
      ghost var m := Here();
      PassedNothing(eorStop, m);
      while |s| < n && !isClosed
        invariant Valid() && Kept() && |s| <= Max(n, 0) && |Tail(rdNext)| + |s| <= |m.tail|
        invariant (isClosed ==> |s| < n) && (!isClosed ==> errno == old(errno))
        invariant !link.writeFailed ==> After(m, s)
        decreases n - |s|, if isClosed then 0 else if rdNext < stop then 1 else 2
      {
        ghost var m1 := Here();
        var d := GetPart(n - |s|);
        if !link.writeFailed {
          ReadThen(m, s, m1, d);
        }
        s := s + d;
      }
    }

    /** FCGX_UnGetChar; `below` says that the byte would be stored in front of the buffer. */
    method UnGetChar(c: int) returns (r: int, below: bool)
      requires Shape()
      modifies this`rdNext, buff
      ensures Shape()
      ensures r == if c == EOF || isClosed || old(rdNext) == stopUnget then EOF else c
      ensures below <==> r != EOF && old(rdNext) == 0
      ensures r == EOF || below ==> rdNext == old(rdNext) && buff[..] == old(buff[..])
      ensures r != EOF && !below ==> rdNext == old(rdNext) - 1 && Unread() == Emit([c % 256], old(Unread()))
      ensures r != EOF && stopUnget < old(rdNext) ==> Valid()
    {
      hide Comes, Midway;
      if c == EOF || isClosed || rdNext == stopUnget {
        return EOF, false;
      }
      if rdNext == 0 {
        return c, true;
      }
      ghost var d, w := buff[rdNext..stop], Tail(stop);
      rdNext := rdNext - 1;
      buff[rdNext] := c % 256;
      assert buff[rdNext..stop] == [c % 256] + d;
      assert Tail(stop) == w;
      EmitTwice([c % 256], d, Coming(w));
      return c, false;
    }

    /**
      Pushing back one byte after the other.  They stay inside the buffer, and stop where the
      last fill left off, unless stopUnget lies ahead: SetReaderType does not move it.
     */
    method UnGetAll(cs: seq<byte>) returns (below: bool)
      requires Shape() && !isClosed
      modifies this`rdNext, buff
      ensures Shape()
      ensures below <==> old(rdNext) < stopUnget && old(rdNext) < |cs|
      ensures !below ==>
                rdNext == old(rdNext) - if old(rdNext) < stopUnget then |cs| else Min(|cs|, old(rdNext) - stopUnget)
    {
      below := false;
      for i := 0 to |cs|
        invariant Shape()
        invariant i <= old(rdNext) || stopUnget <= old(rdNext)
        invariant rdNext == old(rdNext) - if old(rdNext) < stopUnget then i else Min(i, old(rdNext) - stopUnget)
      {
        var r;
        r, below := UnGetChar(cs[i]);
        if below {
          return;
        }
      }
    }

    /** A byte read and pushed back: the unread stream is as it was. */
    method Peek() returns (c: int)
      requires Valid() && !isClosed && (eorStop || link.isBeginProcessed)
      modifies this, link, buff
      ensures Valid() && (c == EOF <==> isClosed)
      ensures !link.writeFailed && c != EOF ==>
                old(link.sent) <= link.sent && old(Unread()) == Replies(link.sent[|old(link.sent)|..], Unread())
    {
      hide Comes, Midway, Calm, Ended, Emit, Replies;
      c := GetChar();
      if c != EOF {
        var r, below := UnGetChar(c);
      }
    }

    /** FCGX_GetStr's work done a byte at a time. */
    method GetBytes(n: nat) returns (s: seq<byte>)
      requires Valid() && !isClosed && (eorStop || link.isBeginProcessed)
      modifies this, link, buff
      ensures Valid() && Kept() && |s| <= n && (isClosed <==> |s| < n)
      ensures !link.writeFailed ==> After(old(Here()), s)
    {
      hide Comes, Midway, Passed, Unread, Ended, Tail;
      ghost var m := Here();
      PassedNothing(eorStop, m);
      s := [];
      while |s| < n
        invariant Valid() && !isClosed && Kept() && |s| <= n
        invariant !link.writeFailed ==> After(m, s)
        decreases n - |s|
      {
        ghost var m1 := Here();
        var c := GetChar();
        if !link.writeFailed {
          ReadThen(m, s, m1, if c == EOF then [] else [c]);
          Unit(s);
        }
        if c == EOF {
          return;
        }
        s := s + [c];
      }
    }

    /** FCGX_Accept_r's first fill: has BEGIN_REQUEST been processed? */
    method ReadBegin() returns (begun: bool)
      requires Shape() && !isClosed && rdNext == stop && !eorStop && !link.isBeginProcessed
      modifies this, link, buff
      ensures Shape() && Held() && begun == link.isBeginProcessed
      ensures begun ==> !isClosed && errno == old(errno)
      ensures link.writeFailed && !old(link.writeFailed) ==> link.requestId == old(link.requestId)
      ensures !link.writeFailed ==>
                var u := old(Unread());
                && begun == (u.bytes == [] && u.stop.Began?)
                && link.requestId == IdAfter(old(link.requestId), u)
                && (begun ==>
                      && link.requestId >= 0 && link.role >= 0
                      && u.stop == Began(link.requestId, link.keepConnection, link.role, Tail(rdNext))
                      && link.sent == old(link.sent) + u.replies)
    {
      hide Comes, Midway;
      ghost var sent := link.sent;
      FillBuffProc();
      begun := link.isBeginProcessed;
      if !link.writeFailed && !isClosed && rdNext < stop {
        assert |buff[rdNext..stop]| > 0;
      }
      if sent <= link.sent {
        SuffixOf(sent, link.sent);
      }
    }

    /** SetReaderType: the stream starts afresh at the next unread byte, whatever the last record still owed. */
    method SetReaderType(streamType: int)
      requires Shape()
      modifies this
      ensures Valid() && !isClosed && rdNext == stop && !eorStop
      ensures rtype == streamType && errno == old(errno) && Tail(rdNext) == old(Tail(rdNext))
      ensures rdNext == old(rdNext) && stopUnget == old(stopUnget)
      ensures Unread() == Future(Ctx(), 0, 0, false, Tail(rdNext))
    {
      hide Future;
      rtype := streamType;
      eorStop, skip := false, false;
      contentLen, paddingLen := 0, 0;
      stop := rdNext;
      isClosed := false;
      NothingDelivered();
    }

    /** FCGX_StartFilterData: from the end of STDIN to the start of DATA. */
    method StartFilterData() returns (rc: int)
      requires Shape()
      modifies this
      ensures (rc == 0) == (link.role == FILTER && old(isClosed) && old(rtype) == STDIN)
      ensures rc != 0 ==> rc == -1 && Shape() && isClosed && errno == FirstError(old(errno), CALL_SEQ_ERROR)
      ensures rc == 0 ==>
                && Valid() && !isClosed && !eorStop && errno == old(errno)
                && rdNext == old(rdNext) && stopUnget == old(stopUnget)
                && Unread() == Future(old(Ctx()).(rtype := DATA as int), 0, 0, false, old(Tail(rdNext)))
    {
      hide Future;
      if link.role != FILTER || !isClosed || rtype != STDIN {
        SetError(CALL_SEQ_ERROR);
        return -1;
      }
      SetReaderType(DATA);
      return 0;
    }

    // ---------------------------------------------------------------- name-value pairs

    /** The rest of a length whose first byte has been read. */
    method ReadLengthRest(first: byte) returns (ok: bool, n: nat, ghost w: seq<byte>)
      requires Valid() && !isClosed && (eorStop || link.isBeginProcessed)
      modifies this, link, buff
      ensures Valid() && Kept()
      ensures n < INT_MAX
      ensures if ok then !isClosed && errno == old(errno) else isClosed
      ensures !link.writeFailed ==>
                var u := old(Unread());
                var l := ReadLength([first] + u.bytes);
                if ok then After(old(Here()), w) && l == Got(n, Unread().bytes)
                else !l.Got? && errno == ParamsErrno(old(errno), u.stop, if l.Short? then Truncated else BadLength)
      decreases if eorStop then 3 else 14
    {
      hide Comes, Midway, Tail, Ended, Passed, Emit, Replies;
      ok, n, w := true, first, [];
      ghost var m := Here();
      PassedNothing(eorStop, m);
      ghost var u := Unread();
      if first >= 0x80 {
        var lenBuff := GetStr(3);
        w := lenBuff;
        if !link.writeFailed {
          AfterSays(m, w);
          LengthBytes(first, lenBuff, u.bytes);
        }
        if |lenBuff| != 3 {
          SetError(PARAMS_ERROR);
          return false, 0, w;
        }
        n := LongLength(first, lenBuff[0], lenBuff[1], lenBuff[2]);
        if n >= INT_MAX {
          SetError(PARAMS_ERROR);
          return false, 0, w;
        }
      } else {
        Seam([first], u.bytes);
      }
    }

    /** Both lengths of a pair whose first byte has been read. */
    method ReadLengths(first: byte) returns (ok: bool, nameLen: nat, valueLen: nat, ghost w: seq<byte>)
      requires Valid() && !isClosed && (eorStop || link.isBeginProcessed)
      modifies this, link, buff
      ensures Valid() && Kept()
      ensures if ok then !isClosed && errno == old(errno) else isClosed
      ensures !link.writeFailed ==>
                var u := old(Unread());
                var l := ReadLength([first] + u.bytes);
                if ok then
                  && After(old(Here()), w)
                  && l.Got? && l.n == nameLen && ReadLength(l.rest) == Got(valueLen, Unread().bytes)
                else
                  var k := if l.Got? then ReadLength(l.rest) else l;
                  !k.Got? && errno == ParamsErrno(old(errno), u.stop, if k.Short? then Truncated else BadLength)
      decreases if eorStop then 4 else 15
    {
      hide Comes, Midway, ReadLength, Tail, Ended, Passed, Emit, Replies, Calm;
      ghost var m := Here();
      ok, nameLen, w := ReadLengthRest(first);
      if !ok {
        return false, 0, 0, w;
      }
      if !link.writeFailed {
        AfterSays(m, w);
      }
      ghost var m1 := Here();
      var c := GetChar();
      if !link.writeFailed {
        ReadThen(m, w, m1, if c == EOF then [] else [c]);
        AfterSays(m1, if c == EOF then [] else [c]);
      }
      if c == EOF {
        NoLength();
        SetError(PARAMS_ERROR);
        return false, 0, 0, w;
      }
      w := w + [c];
      m1 := Here();
      ghost var w2;
      ok, valueLen, w2 := ReadLengthRest(c);
      if !ok {
        return false, 0, 0, w;
      }
      if !link.writeFailed {
        ReadThen(m, w, m1, w2);
        AfterSays(m, w + w2);
      }
      w := w + w2;
    }

    /** The name and the value, joined by '=' in one string. */
    method ReadNameValue(nameLen: nat, valueLen: nat) returns (ok: bool, nameValue: seq<byte>)
      requires Valid() && !isClosed && (eorStop || link.isBeginProcessed)
      modifies this, link, buff
      ensures Valid() && Kept()
      ensures if ok then !isClosed && errno == old(errno) else isClosed
      ensures !link.writeFailed ==>
                var u := old(Unread());
                var k := nameLen + valueLen;
                if ok then
                  && k <= |u.bytes| && After(old(Here()), u.bytes[..k])
                  && nameValue == u.bytes[..nameLen] + [EQUALS] + u.bytes[nameLen..k]
                  && Unread().bytes == u.bytes[k..]
                else
                  |u.bytes| < k && errno == ParamsErrno(old(errno), u.stop, Truncated)
      decreases if eorStop then 3 else 14
    {
      hide Comes, Midway, Tail;
      ghost var m := Here();
      var name := GetStr(nameLen);
      if |name| != nameLen {
        SetError(PARAMS_ERROR);
        return false, [];
      }
      ghost var m1 := Here();
      var value := GetStr(valueLen);
      if !link.writeFailed {
        ReadThen(m, name, m1, value);
      }
      if |value| != valueLen {
        SetError(PARAMS_ERROR);
        return false, [];
      }
      if !link.writeFailed {
        BodyParts(name, value, Unread().bytes);
      }
      return true, name + [EQUALS] + value;
    }

    /** One pair whose first byte has been read. */
    method ReadPair(first: byte) returns (ok: bool, nameValue: seq<byte>, ghost pair: Pair, ghost w: seq<byte>)
      requires Valid() && !isClosed && (eorStop || link.isBeginProcessed)
      modifies this, link, buff
      ensures Valid() && Kept()
      ensures if ok then !isClosed && errno == old(errno) else isClosed
      ensures !link.writeFailed ==>
                var u := old(Unread());
                var f := DecodeFirst([first] + u.bytes);
                if ok then
                  After(old(Here()), w) && f == One(pair, Unread().bytes) && nameValue == Entry(pair)
                else
                  f.None? && f.outcome != Complete && errno == ParamsErrno(old(errno), u.stop, f.outcome)
      decreases if eorStop then 5 else 16
    {
      hide Comes, Midway, DecodeFirst, ReadLength;
      ghost var m := Here();
      pair := Pair([], []);
      var nameLen, valueLen;
      PairDecided([first] + m.run.bytes);
      ok, nameLen, valueLen, w := ReadLengths(first);
      if !ok {
        return false, [], pair, w;
      }
      ghost var m1 := Here();
      ghost var b, k := m1.run.bytes, nameLen + valueLen;
      ok, nameValue := ReadNameValue(nameLen, valueLen);
      if ok && !link.writeFailed {
        ReadThen(m, w, m1, b[..k]);
        pair, w := Pair(b[..nameLen], b[nameLen..k]), w + b[..k];
      }
    }

    /** One turn of ReadParams' loop: a pair, the end of the stream, or an error. */
    method NextPair() returns (more: bool, rc: int, nameValue: seq<byte>, ghost pair: Pair, ghost w: seq<byte>)
      requires Valid() && !isClosed && (eorStop || link.isBeginProcessed)
      modifies this, link, buff
      ensures Valid() && Kept()
      ensures more ==> !isClosed && errno == old(errno) && |Tail(rdNext)| < |old(Tail(rdNext))|
      ensures !more ==> isClosed && (rc == 0 || rc == -1)
      ensures !link.writeFailed ==>
                var u := old(Unread());
                var f := DecodeFirst(u.bytes);
                if more then
                  After(old(Here()), w) && f == One(pair, Unread().bytes) && nameValue == Entry(pair)
                else
                  && f.None? && (rc == 0 <==> f.outcome == Complete)
                  && errno == ParamsErrno(old(errno), u.stop, f.outcome)
                  && (rc == 0 ==> After(old(Here()), []))
      decreases if eorStop then 6 else 17
    {
      hide Comes, Midway, DecodeFirst;
      ghost var m := Here();
      nameValue, pair, w := [], Pair([], []), [];
      var c := GetChar();
      if c == EOF {
        NoPair();
        return false, 0, nameValue, pair, w;
      }
      ghost var m1 := Here();
      more, nameValue, pair, w := ReadPair(c);
      rc := -1;
      if more && !link.writeFailed {
        ReadThen(m, [c], m1, w);
        w := [c] + w;
      }
    }

    /** ReadParams: every pair up to the end of the stream goes into `params` as name=value. */
    method ReadParams(params: Params) returns (rc: int)
      requires Valid() && !isClosed && (eorStop || link.isBeginProcessed)
      requires params.Valid()
      modifies this, link, buff, params, params.vec
      ensures Valid() && Kept() && isClosed
      ensures params.Valid() && (params.vec == old(params.vec) || fresh(params.vec))
      ensures rc == 0 || rc == -1
      ensures !link.writeFailed ==>
                var u := old(Unread());
                var d := Decode(u.bytes);
                && params.Contents() == old(params.Contents()) + Entries(d.pairs)
                && (rc == 0 <==> d.outcome == Complete)
                && errno == ParamsErrno(old(errno), u.stop, d.outcome)
                && (rc == 0 ==> After(old(Here()), u.bytes))
      decreases if eorStop then 7 else 18
    {
      hide Comes, Midway, DecodeFirst, Decode, ParamsErrno, Tail, Unread, Reader.After, Passed, Entries, Replies,
           Environment.Strings, Environment.Terminated;
      ghost var m := Here();
      ghost var w: seq<byte>, ps: seq<Pair> := [], [];
      ghost var es := params.Contents();
      AfterNothing(m);
      DecodedSoFar(m.run.bytes);
      assert es + Entries([]) == es;
      while true
        invariant Valid() && !isClosed && Kept() && errno == old(errno)
        invariant params.Valid() && (params.vec == old(params.vec) || fresh(params.vec))
        invariant !link.writeFailed ==>
                    && After(m, w)
                    && params.Contents() == es + Entries(ps)
                    && Decode(m.run.bytes) == Decoded(ps + Decode(Unread().bytes).pairs, Decode(Unread().bytes).outcome)
        decreases |Tail(rdNext)|
      {
        ghost var m1 := Here();
        if !link.writeFailed {
          StillOpen(m, w);
          PassedRun(eorStop, m, w, m1);
        }
        var more, nameValue;
        ghost var pair, w1;
        more, rc, nameValue, pair, w1 := NextPair();
        if !more {
          if !link.writeFailed {
            DecodeStops(m1.run.bytes);
            if rc == 0 {
              ReadThen(m, w, m1, []);
            }
            Unit(w);
            Unit(ps);
          }
          return;
        }
        params.PutParam(nameValue);
        if !link.writeFailed {
          DecodeGoesOn(ps, m1.run.bytes, pair, Unread().bytes);
          ReadThen(m, w, m1, w1);
          PutEntry(es, ps, pair);
        }
        w, ps := w + w1, ps + [pair];
      }
    }

    /** FCGX_Accept_r's middle part: the PARAMS stream into `params`, and on to the start of STDIN. */
    method ReadParamsStream(params: Params) returns (ok: bool)
      requires Shape() && link.isBeginProcessed && params.Valid()
      modifies this, link, buff, params, params.vec
      ensures Shape() && params.Valid() && (params.vec == old(params.vec) || fresh(params.vec)) && KeptRequest()
      ensures link.endErrno == old(link.endErrno) && link.appStatus == old(link.appStatus)
      ensures old(link.writeFailed) ==> link.writeFailed
      ensures ok ==> Valid() && !isClosed && !eorStop && rtype == STDIN
      ensures !link.writeFailed ==>
                var p := Future(old(Ctx()).(rtype := PARAMS as int), 0, 0, false, old(Tail(rdNext)));
                var d := Decode(p.bytes);
                && ok == (d.outcome == Complete)
                && params.Contents() == old(params.Contents()) + Entries(d.pairs)
                && (ok && p.stop.Eof? ==>
                      && errno == old(errno)
                      && Unread() == Future(old(Ctx()).(rtype := STDIN as int), 0, 0, false, p.stop.rest))
                && (ok && !p.stop.Eof? ==> errno == StopErrno(p.stop, old(errno)))
                && (ok ==> link.sent == old(link.sent) + p.replies)
    {
      hide Comes, Future, Decode, Entries, Passed;
      ghost var sent := link.sent;
      SetReaderType(PARAMS);
      var rc := ReadParams(params);
      ok := rc >= 0;
      if ok {
        SetReaderType(STDIN);
        if sent <= link.sent {
          SuffixOf(sent, link.sent);
        }
      }
    }
  }

  lemma DecodeStops(w: seq<byte>)
    requires DecodeFirst(w).None?
    ensures Decode(w) == Decoded([], DecodeFirst(w).outcome)
    ensures DecodeFirst(w).outcome == Complete ==> w == []
  {
  }

  lemma DecodeGoesOn(ps: seq<Pair>, w: seq<byte>, p: Pair, rest: seq<byte>)
    requires DecodeFirst(w) == One(p, rest)
    ensures ps + Decode(w).pairs == ps + [p] + Decode(rest).pairs
    ensures Decode(w).outcome == Decode(rest).outcome
  {
  }

  lemma PutEntry(es: seq<seq<byte>>, ps: seq<Pair>, p: Pair)
    ensures es + Entries(ps) + [Entry(p)] == es + Entries(ps + [p])
  {
  }

  lemma DecodedSoFar(w: seq<byte>)
    ensures Decode(w) == Decoded([] + Decode(w).pairs, Decode(w).outcome)
  {
  }

  /** sprintf to `at`: the piece and its terminating NUL. */
  method Sprintf(response: array<byte>, at: nat, piece: seq<byte>)
    requires at + |piece| < response.Length
    requires forall i :: at <= i < response.Length ==> response[i] == 0
    modifies response
    ensures response[..at + |piece|] == old(response[..at]) + piece
    ensures forall i :: at + |piece| <= i < response.Length ==> response[i] == 0
  {
    forall i | 0 <= i <= |piece| {
      response[at + i] := if i < |piece| then piece[i] else 0;
    }
  }

  /**
    The loop that answers each known variable in turn, in an array of RESPONSE_LEN bytes.  It
    is over with the first piece that does not fit there with its NUL.
   */
  method ComposeAnswer(params: Params) returns (overrun: bool, reply: Record)
    requires params.Valid()
    ensures overrun <==> !Fits(params.Contents())
    ensures !overrun ==> reply == ValuesResult(params.Contents())
  {
    hide Answers, EncodePairs, CutName, KnownValue, Fits, Strings, AlignInt8;
    ghost var es := params.Contents();
    var response := new byte[RESPONSE_LEN](i => 0);
    var responseP := HEADER_LEN;
    NoAnswers(es);
    var p := 0;
    while p < params.cur
      invariant p <= params.cur && HEADER_LEN <= responseP < RESPONSE_LEN
      invariant response[HEADER_LEN..responseP] == EncodePairs(Answers(es[..p]))
      invariant forall i :: responseP <= i < RESPONSE_LEN ==> response[i] == 0
    {
      var name := CutName(params.vec[p].text);
      var value := KnownValue(name);
      OneMoreAnswer(es, p);
      if value != Null {
        var piece := [|name|, 1] + name + value.text;
        if responseP + |piece| >= RESPONSE_LEN {
          DoesNotFit(es, p + 1);
          return true, Plain(GET_VALUES_RESULT, NULL_REQUEST_ID, [], 0);
        }
        ghost var body := response[HEADER_LEN..responseP];
        Sprintf(response, responseP, piece);
        assert response[HEADER_LEN..responseP + |piece|] == body + piece;
        responseP := responseP + |piece|;
      }
      p := p + 1;
    }
    assert es[..p] == es;
    AnswerFits(es);
    reply := Seal(response, responseP);
    return false, reply;
  }

  /** The header goes in front of the answer and its padding. */
  method Seal(response: array<byte>, responseP: nat) returns (reply: Record)
    requires response.Length == RESPONSE_LEN && HEADER_LEN <= responseP < RESPONSE_LEN
    requires forall i :: responseP <= i < RESPONSE_LEN ==> response[i] == 0
    ensures var body := response[HEADER_LEN..responseP];
            reply == Plain(GET_VALUES_RESULT, NULL_REQUEST_ID, body, AlignInt8(|body|) - |body|)
  {
    var len := responseP - HEADER_LEN;
    var paddedLen := AlignInt8(len);
    var padding := response[responseP..HEADER_LEN + paddedLen];
    assert padding == Zeros(paddedLen - len);
    return Record(GET_VALUES_RESULT, NULL_REQUEST_ID, response[HEADER_LEN..responseP], padding, 0);
  }

  lemma DoesNotFit(es: seq<seq<byte>>, k: nat)
    requires k <= |es| && HEADER_LEN + |EncodePairs(Answers(es[..k]))| >= RESPONSE_LEN
    ensures !Fits(es)
  {
    hide Answers, EncodePairs, Fits;
    AnswerFits(es[..k]);
    if Fits(es) {
      FitsSoFar(es, k);
    }
  }

  lemma NoAnswers(es: seq<seq<byte>>)
    ensures EncodePairs(Answers(es[..0])) == []
  {
  }

  /** What the `p`th string adds to the body of the answer. */
  lemma OneMoreAnswer(es: seq<seq<byte>>, p: nat)
    requires p < |es|
    ensures var name := CutName(es[p]);
            var value := KnownValue(name);
            var piece := if value == Null then [] else [|name| % 256, 1] + name + value.text;
            && EncodePairs(Answers(es[..p + 1])) == EncodePairs(Answers(es[..p])) + piece
            && (value.Str? ==> |name| < 0x80)
  {
    hide Answers, CutName;
    AnswersSnoc(es[..p], es[p]);
    TakeNext(es, p);
    EncodePairsConcat(Answers(es[..p]), Answer(es[p]));
    var name := CutName(es[p]);
    var value := KnownValue(name);
    KnownNamesDiffer();
    if value.Str? {
      OnePiece(name, value.text);
    }
  }

  lemma OnePiece(name: seq<byte>, value: seq<byte>)
    requires |name| < 0x80 && |value| == 1
    ensures EncodePairs([Pair(name, value)]) == [|name|, 1] + name + value
  {
  }

  /** The first pair of a non-empty content, from its two lengths and what follows them. */
  lemma PairDecided(w: seq<byte>)
    requires w != []
    ensures var l, f := ReadLength(w), DecodeFirst(w);
            match l {
              case Short => f == None(Truncated)
              case TooBig => f == None(BadLength)
              case Got(n, w1) =>
                match ReadLength(w1)
                case Short => f == None(Truncated)
                case TooBig => f == None(BadLength)
                case Got(v, w2) =>
                  f == if |w2| < n + v then None(Truncated)
                       else One(Pair(w2[..n], w2[n..n + v]), w2[n + v..])
            }
  {
  }

  lemma NoPair()
    ensures DecodeFirst([]) == None(Complete)
  {
  }

  lemma NoLength()
    ensures ReadLength([]) == Short
  {
  }

  /** A long length, decided by its first byte and the next bytes at hand. */
  lemma LengthBytes(first: byte, b: seq<byte>, w: seq<byte>)
    requires first >= 0x80 && b <= w
    ensures |b| < 3 && b == w ==> ReadLength([first] + w) == Short
    ensures |b| == 3 ==>
              var n := LongLength(first, b[0], b[1], b[2]);
              ReadLength([first] + w) == if n >= INT_MAX then TooBig else Got(n, w[3..])
  {
  }
}
