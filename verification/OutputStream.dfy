/**
  An output stream of a request: content is collected behind room for a header, framed and
  padded when the buffer is emptied, and followed by the closing records when it is closed.
 */
module OutputStream {
  import opened Seqs
  import opened Protocol
  import opened Management
  import opened Connection

  /** The record that `content` is framed in, if there is any. */
  function Frame(wtype: byte, id: nat, content: seq<byte>): seq<Record> {
    if content == [] then [] else [Plain(wtype, id, content, AlignInt8(|content|) - |content|)]
  }

  /** A stream record as the library emits it from a buffer of `size` bytes. */
  predicate Framed(wtype: byte, id: nat, size: nat, r: Record) {
    && r.rtype == wtype && r.id == id && r.reserved == 0
    && 0 < |r.content| && HEADER_LEN + |r.content| + |r.padding| <= size
    && |r.padding| < 8 && r.padding == Zeros(|r.padding|)
    && |EncodeRecord(r)| % 8 == 0
  }

  predicate AllFramed(wtype: byte, id: nat, size: nat, rs: seq<Record>) {
    forall i :: 0 <= i < |rs| ==> Framed(wtype, id, size, rs[i])
  }

  function Joined(rs: seq<Record>): seq<byte> {
    if rs == [] then [] else rs[0].content + Joined(rs[1..])
  }

  lemma {:induction false} JoinedConcat(a: seq<Record>, b: seq<Record>)
    ensures Joined(a + b) == Joined(a) + Joined(b)
  {
    if a == [] {
      Unit(b);
    } else {
      assert (a + b)[1..] == a[1..] + b;
      JoinedConcat(a[1..], b);
      Assoc(a[0].content, Joined(a[1..]), Joined(b));
    }
  }

  lemma FrameIsFramed(wtype: byte, id: nat, size: nat, content: seq<byte>)
    requires size % 8 == 0 && HEADER_LEN + |content| <= size
    ensures AllFramed(wtype, id, size, Frame(wtype, id, content))
    ensures Joined(Frame(wtype, id, content)) == content
    ensures HEADER_LEN + AlignInt8(|content|) <= size
  {
  }

  /** The records WriteCloseRecords adds: end-of-stream unless nothing was ever written to STDERR, and
      END_REQUEST from the last writer. */
  function CloseRecords(wtype: byte, id: nat, unused: bool, last: bool, appStatus: int): seq<Record> {
    (if wtype == STDERR && unused then [] else [Plain(wtype, id, [], 0)])
    + (if last then [EndRequest(id, appStatus, REQUEST_COMPLETE)] else [])
  }

  /** A point in a run of writes: what had been sent, and what was waiting in the buffer. */
  datatype Mark = Mark(sent: seq<Record>, outbound: seq<byte>, waiting: seq<byte>)

  /**
    Between two marks the bytes `s` have been taken in: in raw mode as they are, otherwise
    as the contents of whole stream records.
   */
  predicate Between(raw: bool, wtype: byte, id: nat, size: nat, m: Mark, s: seq<byte>, m': Mark) {
    if raw then
      m'.sent == m.sent && m'.outbound + m'.waiting == m.outbound + m.waiting + s
    else
      && m.sent <= m'.sent
      && AllFramed(wtype, id, size, m'.sent[|m.sent|..])
      && Joined(m'.sent[|m.sent|..]) + m'.waiting == m.waiting + s
  }

  lemma BetweenNothing(raw: bool, wtype: byte, id: nat, size: nat, m: Mark)
    ensures Between(raw, wtype, id, size, m, [], m)
  {
  }

  lemma BetweenStored(raw: bool, wtype: byte, id: nat, size: nat, m: Mark, s: seq<byte>, m': Mark, d: seq<byte>)
    requires Between(raw, wtype, id, size, m, s, m')
    ensures Between(raw, wtype, id, size, m, s + d, m'.(waiting := m'.waiting + d))
  {
    if raw {
      Assoc(m'.outbound, m'.waiting, d);
      Assoc(m.outbound + m.waiting, s, d);
    } else {
      Assoc(Joined(m'.sent[|m.sent|..]), m'.waiting, d);
      Assoc(m.waiting, s, d);
    }
  }

  lemma BetweenTwice(wtype: byte, id: nat, size: nat, m: Mark, a: seq<byte>, m1: Mark, b: seq<byte>, m2: Mark)
    requires Between(false, wtype, id, size, m, a, m1) && Between(false, wtype, id, size, m1, b, m2)
    ensures Between(false, wtype, id, size, m, a + b, m2)
  {
    var x, y := m1.sent[|m.sent|..], m2.sent[|m1.sent|..];
    SuffixJoin(m.sent, m1.sent, m2.sent);
    JoinedConcat(x, y);
    Assoc(Joined(x), Joined(y), m2.waiting);
    Assoc(Joined(x), m1.waiting, b);
    Assoc(m.waiting, a, b);
  }

  lemma BetweenExtends(wtype: byte, id: nat, size: nat, m: Mark, s: seq<byte>, m': Mark)
    requires Between(false, wtype, id, size, m, s, m')
    ensures m.sent <= m'.sent
  {
  }

  lemma BetweenFlushed(wtype: byte, id: nat, size: nat, m: Mark, s: seq<byte>, m': Mark)
    requires Between(true, wtype, id, size, m, s, m')
    ensures Between(true, wtype, id, size, m, s, Mark(m'.sent, m'.outbound + m'.waiting, []))
  {
  }

  lemma BetweenFramed(wtype: byte, id: nat, size: nat, m: Mark, s: seq<byte>, m': Mark, outbound: seq<byte>)
    requires Between(false, wtype, id, size, m, s, m')
    requires size % 8 == 0 && HEADER_LEN + |m'.waiting| <= size
    ensures Between(false, wtype, id, size, m, s, Mark(m'.sent + Frame(wtype, id, m'.waiting), outbound, []))
  {
    var f := Frame(wtype, id, m'.waiting);
    var rs := m'.sent[|m.sent|..];
    FrameIsFramed(wtype, id, size, m'.waiting);
    assert (m'.sent + f)[|m.sent|..] == rs + f;
    JoinedConcat(rs, f);
    Unit(Joined(rs) + m'.waiting);
  }

  class Writer {
    const link: Link
    const buff: array<byte>
    const wtype: byte

    var wrNext: nat
    var stop: nat

    var isAnythingWritten: bool
    var rawWrite: bool
    var isClosed: bool
    var wasFCloseCalled: bool
    var errno: int

    // ---------------------------------------------------------------- abstraction

    ghost predicate Bounds()
      reads this
    {
      && buff.Length % 8 == 0 && 24 <= buff.Length <= MAX_LENGTH + 1
      && wrNext <= stop == buff.Length
      && (!rawWrite ==> HEADER_LEN <= wrNext)
    }

    ghost predicate Valid()
      reads this, link
    {
      && link.Synced() && (errno != 0 ==> link.writeFailed)
      && if wasFCloseCalled then
           isClosed && wrNext == stop <= buff.Length
         else
           Bounds() && !rawWrite && (isClosed ==> link.writeFailed)
    }

    ghost function Id(): nat
      reads link
    {
      link.requestId % 65536
    }

    /** Bytes in the buffer: content behind the header's place, or anything in raw mode. */
    ghost function Waiting(): seq<byte>
      requires Bounds()
      reads this, buff
    {
      if rawWrite then buff[..wrNext] else buff[HEADER_LEN..wrNext]
    }

    ghost function Here(): Mark
      requires Bounds()
      reads this, link, buff
    {
      Mark(link.sent, link.outbound, Waiting())
    }

    /** As NewWriter leaves it. */
    ghost predicate Unused()
      reads this, link, buff
    {
      Valid() && !wasFCloseCalled && !isAnythingWritten && Waiting() == []
    }

    /** What closing the writer adds to the wire: nothing if it has been closed. */
    ghost function Closing(last: bool): seq<Record>
      requires Valid()
      reads this, link, buff
    {
      if wasFCloseCalled then []
      else Frame(wtype, Id(), Waiting())
           + CloseRecords(wtype, Id(), Waiting() == [] && !isAnythingWritten, last, link.appStatus)
    }

    /** Since the mark `m` exactly the bytes `s` have been taken in. */
    ghost predicate Put(m: Mark, s: seq<byte>)
      requires Bounds()
      reads this, link, buff
    {
      (!rawWrite ==> link.Synced()) && Between(rawWrite, wtype, Id(), buff.Length, m, s, Here())
    }

    twostate predicate Kept()
      reads this, link
    {
      && rawWrite == old(rawWrite) && wasFCloseCalled == old(wasFCloseCalled)
      && link.nWriters == old(link.nWriters)
      && (old(link.writeFailed) ==> link.writeFailed)
      && (link.writeFailed ==> old(link.writeFailed) || !link.reliable)
      && (errno != 0 ==> old(errno) != 0 || link.writeFailed)
      && (isClosed ==> old(isClosed) || link.writeFailed)
      && (old(isClosed) ==> isClosed)
    }

    // ---------------------------------------------------------------- creation

    /**
      NewWriter over NewStream's sizing: at least 32 and at most 65536 bytes are allocated,
      and aligning the buffer to 8 bytes costs 8 of them when malloc did not.
     */
    constructor (link: Link, bufflen: int, misaligned: bool, wtype: byte)
      requires link.Synced()
      ensures this.link == link && this.wtype == wtype && fresh(buff)
      ensures Unused() && !isClosed && errno == 0
      ensures bufflen % 8 == 0 && 32 <= bufflen <= 65536 ==> buff.Length == bufflen - if misaligned then 8 else 0
      ensures bufflen < 32 ==> buff.Length == 32 - if misaligned then 8 else 0
      ensures bufflen > 65536 ==> buff.Length == 65536 - if misaligned then 8 else 0
    {
      this.link, this.wtype := link, wtype;
      var size := AlignInt8(Min(Max(bufflen, 32), MAX_LENGTH + 1));
      buff := new byte[if misaligned then size - 8 else size];
      wrNext := HEADER_LEN;
      stop := if misaligned then size - 8 else size;
      isAnythingWritten, rawWrite, isClosed, wasFCloseCalled := false, false, false, false;
      errno := 0;
    }

    method SetError(code: int)
      modifies this`errno, this`isClosed
      ensures isClosed && errno == if old(errno) != 0 then old(errno) else code
    {
      if errno == 0 {
        errno := code;
      }
      isClosed := true;
    }

    // ---------------------------------------------------------------- EmptyBuffProc

    method Pad(n: nat)
      requires wrNext + n <= buff.Length
      modifies this`wrNext, buff
      ensures wrNext == old(wrNext) + n
      ensures buff[..wrNext] == old(buff[..wrNext]) + Zeros(n)
    {
      forall i | wrNext <= i < wrNext + n {
        buff[i] := 0;
      }
      wrNext := wrNext + n;
    }

    method PutHeader(h: seq<byte>)
      requires |h| == HEADER_LEN <= wrNext <= buff.Length
      modifies buff
      ensures buff[..wrNext] == h + old(buff[HEADER_LEN..wrNext])
    {
      forall i | 0 <= i < HEADER_LEN {
        buff[i] := h[i];
      }
    }

    /** Fills in header and padding around the content, or gives up the header's place. */
    method FrameBuffer()
      requires Bounds() && !rawWrite
      modifies this`wrNext, buff
      ensures wrNext <= buff.Length
      ensures buff[..wrNext] == EncodeAll(Frame(wtype, Id(), old(Waiting())))
      ensures wrNext == 0 <==> old(Waiting()) == []
      ensures wrNext == 0 || HEADER_LEN <= wrNext
    {
      hide MakeHeader, HeaderBytes;
      ghost var content := Waiting();
      var cLen := wrNext - HEADER_LEN;
      if cLen > 0 {
        var eLen := AlignInt8(cLen);
        ghost var w0 := buff[..wrNext];
        Pad(eLen - cLen);
        ghost var w1 := buff[..wrNext];
        PutHeader(MakeHeader(wtype, link.requestId, cLen, eLen - cLen));
        DropHeader(w0, Zeros(eLen - cLen));
        assert w1[HEADER_LEN..] == old(buff[HEADER_LEN..wrNext]) + Zeros(eLen - cLen);
        OneFrame(wtype, link.requestId, content, eLen - cLen);
      } else {
        wrNext := 0;
      }
    }

    /** Writes the buffer out. */
    method FlushBuffer()
      requires wrNext <= buff.Length
      modifies this`wrNext, this`isAnythingWritten, this`errno, this`isClosed, link`outbound, link`writeFailed,
               link`stalls
      ensures old(link.writeFailed) ==> link.writeFailed
      ensures link.writeFailed ==> old(link.writeFailed) || !link.reliable
      ensures errno != 0 ==> old(errno) != 0 || link.writeFailed
      ensures isClosed ==> old(isClosed) || link.writeFailed
      ensures wrNext <= old(wrNext)
      ensures isAnythingWritten == (old(isAnythingWritten) || old(wrNext) != 0)
      ensures !link.writeFailed ==> wrNext == 0 && link.outbound == old(link.outbound) + old(buff[..wrNext])
      ensures wrNext == 0 || (wrNext == old(wrNext) && isClosed && link.writeFailed)
    {
      if wrNext != 0 {
        isAnythingWritten := true;
        var ok := link.WriteItAll(buff[..wrNext]);
        if !ok {
          var osErrno: nat :| osErrno > 0;
          SetError(osErrno);
          return;
        }
        wrNext := 0;
      } else {
        Unit(link.outbound);
      }
    }

    /** EmptyBuffProc: frame what is collected, add the closing records if asked to, write it all. */
    method EmptyBuffProc(doClose: bool)
      requires Bounds() && !wasFCloseCalled
      requires doClose ==> !rawWrite
      requires !rawWrite ==> link.Synced()
      requires isClosed ==> link.writeFailed
      modifies this, buff, link`outbound, link`writeFailed, link`stalls, link`sent, link`nWriters
      ensures wasFCloseCalled == old(wasFCloseCalled) && stop == old(stop) && wrNext <= stop
      ensures old(link.writeFailed) ==> link.writeFailed
      ensures link.writeFailed ==> old(link.writeFailed) || !link.reliable
      ensures errno != 0 ==> old(errno) != 0 || link.writeFailed
      ensures isClosed ==> old(isClosed) || link.writeFailed
      ensures rawWrite == (old(rawWrite) || doClose)
      ensures link.nWriters == old(link.nWriters) - (if doClose then 1 else 0)
      ensures !old(rawWrite) ==> link.Synced()
      ensures !doClose ==> Bounds() && (wrNext < stop || isClosed)
      ensures !doClose && !link.writeFailed ==>
                && Emptied(old(Here()))
                && isAnythingWritten == (old(isAnythingWritten) || old(wrNext) > (if rawWrite then 0 else HEADER_LEN))
      ensures doClose && !link.writeFailed ==>
                wrNext == 0 &&
                link.sent == old(link.sent) + Frame(wtype, Id(), old(Waiting()))
                             + CloseRecords(wtype, Id(), old(Waiting()) == [] && !old(isAnythingWritten),
                                            old(link.nWriters) == 1, link.appStatus)
      decreases if doClose then 3 else 0
    {
      hide EncodeAll, Frame, CloseRecords, Plain;
      ghost var m := Here();
      ghost var frame := Frame(wtype, Id(), m.waiting);
      ghost var close := CloseRecords(wtype, Id(), m.waiting == [] && !isAnythingWritten, link.nWriters == 1,
                                      link.appStatus);
      if !rawWrite {
        FrameBuffer();
      }
      if doClose {
        WriteCloseRecords();
      }
      FlushBuffer();
      if wrNext != 0 {
        return;
      }
      if !rawWrite {
        wrNext := HEADER_LEN;
        EncodeAllConcat(link.sent, frame);
        link.sent := link.sent + frame;
      } else if doClose {
        EncodeAllConcat(link.sent, frame);
        EncodeAllConcat(link.sent + frame, close);
        link.sent := link.sent + frame + close;
      }
    }

    /** The buffer's content is on its way, and there is room again. */
    ghost predicate Emptied(m: Mark)
      requires Bounds()
      reads this, link, buff
    {
      && Waiting() == []
      && if rawWrite then
           link.sent == m.sent && link.outbound == m.outbound + m.waiting
         else
           link.sent == m.sent + Frame(wtype, Id(), m.waiting)
    }

    /** memcpy into the buffer. */
    method Store(d: seq<byte>)
      requires wrNext + |d| <= stop <= buff.Length
      modifies this`wrNext, buff
      ensures wrNext == old(wrNext) + |d|
      ensures buff[..wrNext] == old(buff[..wrNext]) + d
      ensures HEADER_LEN <= old(wrNext) ==> buff[HEADER_LEN..wrNext] == old(buff[HEADER_LEN..wrNext]) + d
    {
      forall i | 0 <= i < |d| {
        buff[wrNext + i] := d[i];
      }
      wrNext := wrNext + |d|;
    }

    /** FCGX_PutStr. */
    method PutStr(str: seq<byte>) returns (n: int)
      requires if wasFCloseCalled then isClosed && wrNext == stop <= buff.Length else Bounds()
      requires !rawWrite ==> link.Synced()
      requires isClosed ==> wasFCloseCalled || link.writeFailed
      modifies this, buff, link`outbound, link`writeFailed, link`stalls, link`sent, link`nWriters
      ensures Kept() && stop == old(stop)
      ensures n == |str| || n == EOF
      ensures wasFCloseCalled ==> wrNext == stop && link.sent == old(link.sent) && link.outbound == old(link.outbound)
                                  && (n == |str| <==> str == [])
      ensures !rawWrite ==> link.Synced()
      ensures !wasFCloseCalled ==> Bounds()
      ensures !wasFCloseCalled && !link.writeFailed ==>
                && n == |str| && Put(old(Here()), str)
                && (!rawWrite ==> isAnythingWritten == (old(isAnythingWritten) || link.sent != old(link.sent)))
      decreases 1, 1
    {
      hide Between, Frame;
      if wasFCloseCalled {
        return if str == [] then 0 else EOF;
      }
      ghost var m := Here();
      BetweenNothing(rawWrite, wtype, Id(), buff.Length, m);
      if |str| <= stop - wrNext {
        StoreMore(str, m, []);
        Unit(str);
        return |str|;
      }
      var moved := 0;
      while true
        invariant !wasFCloseCalled && Bounds() && Kept() && stop == old(stop) && moved < |str|
        invariant isClosed ==> link.writeFailed
        invariant !rawWrite ==> link.Synced()
        invariant !link.writeFailed ==>
                    && Put(m, str[..moved]) && (!rawWrite ==> m.sent <= link.sent)
                    && (!rawWrite ==> isAnythingWritten == (old(isAnythingWritten) || link.sent != m.sent))
        decreases |str| - moved, if wrNext < stop then 0 else if isClosed then 1 else 2
      {
        if wrNext != stop {
          var k := Min(|str| - moved, stop - wrNext);
          TakeMore(str, moved, k);
          StoreMore(str[moved..moved + k], m, str[..moved]);
          moved := moved + k;
          if moved == |str| {
            assert str[..moved] == str;
            return moved;
          }
        }
        if isClosed {
          return EOF;
        }
        MakeRoom(m, str[..moved]);
      }
    }

    /** Storing more, with the account of what has been put. */
    method StoreMore(d: seq<byte>, ghost m: Mark, ghost s: seq<byte>)
      requires Bounds() && wrNext + |d| <= stop
      requires !link.writeFailed ==> Put(m, s)
      modifies this`wrNext, buff
      ensures Bounds() && wrNext == old(wrNext) + |d|
      ensures !link.writeFailed ==> Put(m, s + d)
    {
      hide Between;
      ghost var m1 := Here();
      if !link.writeFailed {
        BetweenStored(rawWrite, wtype, Id(), buff.Length, m, s, m1, d);
      }
      Store(d);
      assert Waiting() == m1.waiting + d;
    }

    /** Emptying a full buffer, with the account of what has been put. */
    method MakeRoom(ghost m: Mark, ghost s: seq<byte>)
      requires Bounds() && !wasFCloseCalled && !isClosed && wrNext == stop
      requires !rawWrite ==> link.Synced()
      requires !link.writeFailed ==> Put(m, s)
      modifies this, buff, link`outbound, link`writeFailed, link`stalls, link`sent, link`nWriters
      ensures Bounds() && Kept() && stop == old(stop) && link.nWriters == old(link.nWriters)
      ensures isClosed ==> link.writeFailed
      ensures wrNext < stop || isClosed
      ensures !rawWrite ==> link.Synced()
      ensures !link.writeFailed ==>
                && Put(m, s)
                && (!rawWrite ==>
                      isAnythingWritten && old(link.sent) <= link.sent && |old(link.sent)| < |link.sent|)
      decreases 1, 0
    {
      hide Between;
      ghost var m1 := Here();
      EmptyBuffProc(false);
      if !link.writeFailed {
        if rawWrite {
          BetweenFlushed(wtype, Id(), buff.Length, m, s, m1);
        } else {
          BetweenFramed(wtype, Id(), buff.Length, m, s, m1, link.outbound);
        }
      }
    }

    /** WriteCloseRecords: from here on what is put is written as it is. */
    method WriteCloseRecords()
      requires wrNext <= stop == buff.Length && buff.Length % 8 == 0 && 24 <= buff.Length <= MAX_LENGTH + 1
      requires !wasFCloseCalled && (isClosed ==> link.writeFailed)
      modifies this, buff, link`outbound, link`writeFailed, link`stalls, link`sent, link`nWriters
      ensures rawWrite && Bounds() && wasFCloseCalled == old(wasFCloseCalled) && stop == old(stop)
      ensures old(link.writeFailed) ==> link.writeFailed
      ensures link.writeFailed ==> old(link.writeFailed) || !link.reliable
      ensures errno != 0 ==> old(errno) != 0 || link.writeFailed
      ensures isClosed ==> old(isClosed) || link.writeFailed
      ensures link.nWriters == old(link.nWriters) - 1
      ensures !link.writeFailed ==>
                && link.sent == old(link.sent)
                && link.outbound + buff[..wrNext]
                   == old(link.outbound + buff[..wrNext])
                      + EncodeAll(CloseRecords(wtype, Id(), old(wrNext) == 0 && !old(isAnythingWritten),
                                               old(link.nWriters) == 1, link.appStatus))
      decreases 2
    {
      hide EncodeAll, EncodeRecord, EndRequest, Plain, Between;
      rawWrite := true;
      ghost var out, id := link.outbound + buff[..wrNext], Id();
      var quiet := wtype == STDERR && wrNext == 0 && !isAnythingWritten;
      if !quiet {
        EofHeader(wtype, link.requestId);
        PutRaw(MakeHeader(wtype, link.requestId, 0, 0));
      }
      if link.nWriters == 1 {
        PutRaw(EncodeRecord(EndRequest(link.requestId % 65536, link.appStatus, REQUEST_COMPLETE)));
      }
      link.nWriters := link.nWriters - 1;
      CloseBytes(out, wtype, id, quiet, old(link.nWriters) == 1, link.appStatus);
    }

    /** FCGX_PutStr in raw mode. */
    method PutRaw(str: seq<byte>)
      requires Bounds() && rawWrite && !wasFCloseCalled
      requires isClosed ==> link.writeFailed
      modifies this, buff, link`outbound, link`writeFailed, link`stalls, link`sent, link`nWriters
      ensures Bounds() && Kept() && stop == old(stop)
      ensures !link.writeFailed ==>
                && link.sent == old(link.sent)
                && link.outbound + buff[..wrNext] == old(link.outbound + buff[..wrNext]) + str
      decreases 1, 2
    {
      var n := PutStr(str);
    }

    // ---------------------------------------------------------------- the client's other calls

    /** FCGX_PutChar. */
    method PutChar(c: int) returns (r: int)
      requires Valid()
      modifies this, buff, link`outbound, link`writeFailed, link`stalls, link`sent, link`nWriters
      ensures Valid() && Kept()
      ensures wasFCloseCalled ==> r == EOF && link.sent == old(link.sent) && link.outbound == old(link.outbound)
      ensures !wasFCloseCalled && !link.writeFailed ==>
                && r == c % 256 && Put(old(Here()), [c % 256])
                && isAnythingWritten == (old(isAnythingWritten) || link.sent != old(link.sent))
    {
      hide Between, Frame;
      ghost var m := if wasFCloseCalled then Mark([], [], []) else Here();
      ghost var d := [c % 256];
      BetweenNothing(rawWrite, wtype, Id(), buff.Length, m);
      Unit(d);
      if wrNext != stop {
        StoreMore([c % 256], m, []);
        return c % 256;
      }
      if isClosed {
        return EOF;
      }
      MakeRoom(m, []);
      if wrNext != stop {
        StoreMore([c % 256], m, []);
        return c % 256;
      }
      return EOF;
    }

    /** FCGX_FFlush. */
    method FFlush() returns (rc: int)
      requires Valid()
      modifies this, buff, link`outbound, link`writeFailed, link`stalls, link`sent, link`nWriters
      ensures Valid() && Kept()
      ensures wasFCloseCalled ==> rc == 0 && link.sent == old(link.sent) && link.outbound == old(link.outbound)
      ensures !wasFCloseCalled && !link.writeFailed ==>
                && rc == 0 && Emptied(old(Here())) && Put(old(Here()), [])
                && isAnythingWritten == (old(isAnythingWritten) || link.sent != old(link.sent))
    {
      hide Between;
      if isClosed {
        return 0;
      }
      ghost var m := Here();
      BetweenNothing(rawWrite, wtype, Id(), buff.Length, m);
      EmptyBuffProc(false);
      if !link.writeFailed {
        BetweenFramed(wtype, Id(), buff.Length, m, [], m, link.outbound);
      }
      return if isClosed then EOF else 0;
    }

    /** FCGX_FClose. */
    method FClose() returns (rc: int)
      requires Valid()
      modifies this, buff, link`outbound, link`writeFailed, link`stalls, link`sent, link`nWriters
      ensures Valid() && wasFCloseCalled && rc == (if errno == 0 then 0 else EOF)
      ensures old(link.writeFailed) ==> link.writeFailed
      ensures link.writeFailed ==> old(link.writeFailed) || !link.reliable
      ensures errno != 0 ==> old(errno) != 0 || link.writeFailed
      ensures old(wasFCloseCalled) ==>
                && link.sent == old(link.sent) && link.outbound == old(link.outbound)
                && link.nWriters == old(link.nWriters) && link.writeFailed == old(link.writeFailed)
      ensures !old(wasFCloseCalled) ==> link.nWriters == old(link.nWriters) - 1
      ensures !link.writeFailed ==> link.sent == old(link.sent) + old(Closing(link.nWriters == 1))
    {
      hide Frame, CloseRecords;
      Unit(link.sent);
      if !wasFCloseCalled {
        ghost var id, unused := Id(), Waiting() == [] && !isAnythingWritten;
        Assoc(link.sent, Frame(wtype, id, Waiting()),
              CloseRecords(wtype, id, unused, link.nWriters == 1, link.appStatus));
        EmptyBuffProc(true);
        wasFCloseCalled := true;
        isClosed := true;
        stop := wrNext;
      }
      return if errno == 0 then 0 else EOF;
    }
  }

  lemma EofHeader(wtype: byte, id: int)
    ensures MakeHeader(wtype, id, 0, 0) == EncodeRecord(Plain(wtype, id % 65536, [], 0))
  {
    MaskedId(wtype, id, 0, 0);
    var h := HeaderBytes(wtype, id, 0, 0, 0);
    assert EncodeRecord(Plain(wtype, id % 65536, [], 0)) == h + [] + [];
    Unit(h);
  }

  /** The closing records' bytes behind `out`, put one after the other. */
  lemma CloseBytes(out: seq<byte>, wtype: byte, id: nat, quiet: bool, last: bool, appStatus: int)
    ensures var e := if quiet then [] else [Plain(wtype, id, [], 0)];
            var f := if last then [EndRequest(id, appStatus, REQUEST_COMPLETE)] else [];
            var o1 := if quiet then out else out + EncodeRecord(e[0]);
            var o2 := if last then o1 + EncodeRecord(f[0]) else o1;
            o2 == out + EncodeAll(e + f)
  {
    var e := if quiet then [] else [Plain(wtype, id, [], 0)];
    var f := if last then [EndRequest(id, appStatus, REQUEST_COMPLETE)] else [];
    EncodeAllConcat(e, f);
    Assoc(out, EncodeAll(e), EncodeAll(f));
    Unit(out);
    Unit(out + EncodeAll(e));
    if !quiet {
      Unit(e);
      EncodeAllSnoc([], e[0]);
      Unit(EncodeRecord(e[0]));
    }
    if last {
      Unit(f);
      EncodeAllSnoc([], f[0]);
      Unit(EncodeRecord(f[0]));
    }
  }

  lemma DropHeader(w: seq<byte>, z: seq<byte>)
    requires HEADER_LEN <= |w|
    ensures (w + z)[HEADER_LEN..] == w[HEADER_LEN..] + z
  {
  }

  /** The bytes of a framed content; the request id is cut to 16 bits by the header. */
  lemma OneFrame(wtype: byte, id: int, content: seq<byte>, pad: nat)
    requires 0 < |content| <= MAX_LENGTH && pad <= 255
    ensures MakeHeader(wtype, id, |content|, pad) + (content + Zeros(pad))
            == EncodeAll([Plain(wtype, id % 65536, content, pad)])
  {
    var r := Plain(wtype, id % 65536, content, pad);
    assert [r][1..] == [];
    Unit(EncodeRecord(r));
    MaskedId(wtype, id, |content|, pad);
    Assoc(HeaderBytes(wtype, id, |content|, pad, 0), content, Zeros(pad));
  }

  lemma MaskedId(rtype: int, id: int, cLen: int, pLen: int)
    ensures HeaderBytes(rtype, id, cLen, pLen, 0) == HeaderBytes(rtype, id % 65536, cLen, pLen, 0)
  {
    assert (id % 65536) % 256 == id % 256;
    assert ((id % 65536) / 256) % 256 == (id / 256) % 256;
  }
}
