/**
  The bridge's side of the request: the records main sends before its event loop, and the
  one-buffer machine that then moves standard input to the application server.
 */
module BridgeRequest {
  import opened Seqs
  import opened Protocol
  import opened NameValue
  import opened Environment
  import opened Management
  import opened Connection
  import opened OutputStream

  const BUFFLEN := 8192
  const REQUEST_ID := 1

  // ---------------------------------------------------------------- the environment

  predicate IsSetting(e: seq<byte>) {
    EQUALS in e && |e| < INT_MAX
  }

  /** strchr(*envp, '='): the string up to its first '=', and what follows it. */
  function SplitSetting(e: seq<byte>): (p: Pair)
    requires IsSetting(e)
    ensures Encodable(p) && Entry(p) == e && EQUALS !in p.name
  {
    var k := FirstEquals(e);
    assert e == e[..k] + [EQUALS] + e[k + 1..];
    Pair(e[..k], e[k + 1..])
  }

  predicate AllSettings(es: seq<seq<byte>>) {
    forall i :: 0 <= i < |es| ==> IsSetting(es[i])
  }

  function Settings(es: seq<seq<byte>>): (ps: seq<Pair>)
    requires AllSettings(es)
    ensures AllEncodable(ps) && Entries(ps) == es
  {
    seq(|es|, i requires 0 <= i < |es| => SplitSetting(es[i]))
  }

  lemma SettingsSnoc(es: seq<seq<byte>>, i: nat)
    requires i < |es| && AllSettings(es[..i]) && IsSetting(es[i])
    ensures AllSettings(es[..i + 1])
    ensures EncodePairs(Settings(es[..i + 1])) == EncodePairs(Settings(es[..i])) + EncodePair(SplitSetting(es[i]))
  {
    var a, p := Settings(es[..i]), SplitSetting(es[i]);
    assert Settings(es[..i + 1]) == a + [p];
    EncodePairsConcat(a, [p]);
    assert [p][1..] == [];
    Unit(EncodePair(p));
  }

  // ---------------------------------------------------------------- the sending sequence of main

  function BeginRecord(): Record {
    Plain(BEGIN_REQUEST, REQUEST_ID, BeginRequestBody(RESPONDER, false), 0)
  }

  /** Request 1, role RESPONDER, and no flags. */
  lemma BeginBytes()
    ensures EncodeRecord(BeginRecord()) == [1, 1, 0, 1, 0, 8, 0, 0, 0, 1, 0, 0, 0, 0, 0, 0]
  {
    BeginRequestBytes(REQUEST_ID, RESPONDER, false);
  }

  /** What main has sent before its event loop. */
  predicate Preamble(rs: seq<Record>, content: seq<byte>, size: nat) {
    && |rs| >= 2 && rs[0] == BeginRecord() && rs[|rs| - 1] == Plain(PARAMS, REQUEST_ID, [], 0)
    && AllFramed(PARAMS, REQUEST_ID, size, rs[1..|rs| - 1])
    && Joined(rs[1..|rs| - 1]) == content
  }

  datatype Outcome = Proceed | Exit(code: int)

  /** One environment string: its pair header, name and value go into the PARAMS stream. */
  method PutSetting(w: Writer, headerBuff: array<byte>, e: seq<byte>, ghost m: OutputStream.Mark, ghost s: seq<byte>)
    returns (ok: bool)
    requires IsSetting(e) && headerBuff.Length == 8 && headerBuff != w.buff
    requires w.Valid() && !w.wasFCloseCalled
    requires !w.link.writeFailed ==> w.Put(m, s)
    modifies w, w.buff, headerBuff, w.link`outbound, w.link`writeFailed, w.link`stalls, w.link`sent, w.link`nWriters
    ensures w.Valid() && !w.wasFCloseCalled && w.link.nWriters == old(w.link.nWriters)
    ensures !w.link.writeFailed ==> ok && w.Put(m, s + EncodePair(SplitSetting(e)))
  {
    hide Between, EncodeLength, SplitSetting;
    var p := SplitSetting(e);
    var headerLen := BuildNameValueHeader(|p.name|, |p.value|, headerBuff);
    var a, b, c := headerBuff[..headerLen], p.name, p.value;
    ghost var m1 := w.Here();
    var n := w.PutStr(a);
    if n < 0 {
      return false;
    }
    if !w.link.writeFailed {
      BetweenTwice(w.wtype, w.Id(), w.buff.Length, m, s, m1, a, w.Here());
    }
    m1 := w.Here();
    n := w.PutStr(b);
    if n < 0 {
      return false;
    }
    if !w.link.writeFailed {
      BetweenTwice(w.wtype, w.Id(), w.buff.Length, m, s + a, m1, b, w.Here());
    }
    m1 := w.Here();
    n := w.PutStr(c);
    if !w.link.writeFailed {
      BetweenTwice(w.wtype, w.Id(), w.buff.Length, m, s + a + b, m1, c, w.Here());
      ThreePuts(s, a, b, c);
    }
    return n >= 0;
  }

  lemma ThreePuts(s: seq<byte>, a: seq<byte>, b: seq<byte>, c: seq<byte>)
    ensures s + a + b + c == s + (a + b + c)
  {
  }

  /** BEGIN_REQUEST and the environment; an entry without '=' ends the bridge with code 1000. */
  method SendPreamble(link: Link, environ: seq<seq<byte>>, misaligned: bool) returns (r: Outcome)
    requires link.Synced() && link.sent == [] && link.outbound == [] && !link.writeFailed
    requires forall i :: 0 <= i < |environ| ==> |environ[i]| < INT_MAX
    modifies link
    ensures link.writeFailed ==> !link.reliable
    ensures r == Proceed ==> AllSettings(environ)
    ensures link.reliable && link.prompt && !AllSettings(environ) ==> r == Exit(1000)
    ensures link.reliable ==> (r == Proceed <==> AllSettings(environ) && EncodeRecord(BeginRecord()) <= link.outbound)
    ensures link.reliable && link.prompt ==> EncodeRecord(BeginRecord()) <= link.outbound
    ensures r == Proceed && !link.writeFailed ==>
              link.Synced() && Preamble(link.sent, EncodePairs(Settings(environ)), BUFFLEN)
  {
    hide Between, EncodePairs, Settings, Preamble, EncodeRecord, BeginRecord, Frame, CloseRecords, EncodeAll,
         AllSettings;
    link.requestId := REQUEST_ID;
    var begin := EncodeRecord(BeginRecord());
    var count := link.Write(begin);
    if count != |begin| {
      var osErrno: nat := *;
      return Exit(osErrno);
    }
    BeginSent(begin, count);
    link.sent := [BeginRecord()];
    link.nWriters := 2;
    var paramsStream := new Writer(link, BUFFLEN, misaligned, PARAMS);
    ghost var m := paramsStream.Here();
    r := SendEnvironment(paramsStream, environ);
    if !link.writeFailed {
      StartsWithBegin(link.sent);
    }
    if r != Proceed {
      return;
    }
    ghost var m1 := paramsStream.Here();
    var rc := paramsStream.FClose();
    if !link.writeFailed {
      PreambleSent(m, EncodePairs(Settings(environ)), m1, paramsStream.buff.Length, link.appStatus);
      StartsWithBegin(link.sent);
    }
  }

  method SendEnvironment(w: Writer, environ: seq<seq<byte>>) returns (r: Outcome)
    requires w.Valid() && !w.wasFCloseCalled
    requires forall i :: 0 <= i < |environ| ==> |environ[i]| < INT_MAX
    modifies w, w.buff, w.link`outbound, w.link`writeFailed, w.link`stalls, w.link`sent, w.link`nWriters
    ensures w.Valid() && !w.wasFCloseCalled && w.link.nWriters == old(w.link.nWriters)
    ensures r == Proceed ==> AllSettings(environ)
    ensures !w.link.writeFailed ==> r == if AllSettings(environ) then Proceed else Exit(1000)
    ensures !w.link.writeFailed ==> old(w.link.sent) <= w.link.sent
    ensures r == Proceed && !w.link.writeFailed ==> w.Put(old(w.Here()), EncodePairs(Settings(environ)))
  {
    hide Between, EncodePairs, Settings, EncodePair, SplitSetting;
    var headerBuff := new byte[8];
    ghost var m := w.Here();
    BetweenNothing(false, w.wtype, w.Id(), w.buff.Length, m);
    NoSettings(environ);
    for i := 0 to |environ|
      invariant w.Valid() && !w.wasFCloseCalled && w.link.nWriters == old(w.link.nWriters)
      invariant AllSettings(environ[..i])
      invariant !w.link.writeFailed ==> w.Put(m, EncodePairs(Settings(environ[..i])))
    {
      if EQUALS !in environ[i] {
        if !w.link.writeFailed {
          BetweenExtends(w.wtype, w.Id(), w.buff.Length, m, EncodePairs(Settings(environ[..i])), w.Here());
        }
        return Exit(1000);
      }
      ghost var s := EncodePairs(Settings(environ[..i]));
      var ok := PutSetting(w, headerBuff, environ[i], m, s);
      if !ok {
        return Exit(w.errno);
      }
      SettingsSnoc(environ, i);
    }
    assert environ[..|environ|] == environ;
    if !w.link.writeFailed {
      BetweenExtends(w.wtype, w.Id(), w.buff.Length, m, EncodePairs(Settings(environ)), w.Here());
    }
    return Proceed;
  }

  lemma BeginSent(begin: seq<byte>, count: nat)
    requires begin == EncodeRecord(BeginRecord()) && count == |begin|
    ensures [] + begin[..count] == EncodeAll([BeginRecord()])
  {
  }

  lemma StartsWithBegin(rs: seq<Record>)
    requires [BeginRecord()] <= rs
    ensures EncodeRecord(BeginRecord()) <= EncodeAll(rs)
  {
    hide EncodeRecord, BeginRecord;
    assert rs[0] == BeginRecord();
  }

  lemma NoSettings(environ: seq<seq<byte>>)
    ensures AllSettings(environ[..0]) && EncodePairs(Settings(environ[..0])) == []
  {
  }

  lemma PreambleSent(m: OutputStream.Mark, content: seq<byte>, m1: OutputStream.Mark, size: nat, status: int)
    requires m.sent == [BeginRecord()] && m.waiting == []
    requires Between(false, PARAMS, REQUEST_ID, size, m, content, m1)
    requires size % 8 == 0 && HEADER_LEN + |m1.waiting| <= size <= BUFFLEN
    ensures forall unused ::
              Preamble(m1.sent + (Frame(PARAMS, REQUEST_ID, m1.waiting)
                                  + CloseRecords(PARAMS, REQUEST_ID, unused, false, status)),
                       content, BUFFLEN)
  {
    hide BeginRecord, Frame;
    var f, e := Frame(PARAMS, REQUEST_ID, m1.waiting), [Plain(PARAMS, REQUEST_ID, [], 0)];
    BetweenFramed(PARAMS, REQUEST_ID, size, m, content, m1, []);
    Unit(e);
    Assoc(m1.sent, f, e);
    var rs := m1.sent + f + e;
    var x := (m1.sent + f)[1..];
    assert rs[1..|rs| - 1] == x;
    Unit(Joined(x));
    Unit(content);
  }

  // ---------------------------------------------------------------- the stdin machine

  /** The STDIN records of the reads `chunks`. */
  function StdinRecords(chunks: seq<seq<byte>>): (rs: seq<Record>)
    ensures |rs| == |chunks|
    ensures forall i :: 0 <= i < |rs| ==> rs[i] == Plain(STDIN, REQUEST_ID, chunks[i], 0)
  {
    seq(|chunks|, i requires 0 <= i < |chunks| => Plain(STDIN, REQUEST_ID, chunks[i], 0))
  }

  const STDIN_EOF := Plain(STDIN, REQUEST_ID, [], 0)

  function StdinWire(chunks: seq<seq<byte>>, done: bool): seq<byte> {
    EncodeAll(StdinRecords(chunks) + if done then [STDIN_EOF] else [])
  }

  /** Reads that were not empty, and fitted the buffer behind a header. */
  predicate Sized(chunks: seq<seq<byte>>) {
    forall i :: 0 <= i < |chunks| ==> 0 < |chunks[i]| <= BUFFLEN - HEADER_LEN
  }

  lemma SizedSnoc(chunks: seq<seq<byte>>, c: seq<byte>)
    requires Sized(chunks) && |c| <= BUFFLEN - HEADER_LEN
    ensures Sized(if c == [] then chunks else chunks + [c])
  {
  }

  lemma StdinWireGrows(chunks: seq<seq<byte>>, c: seq<byte>)
    ensures StdinWire(chunks + [c], false) == StdinWire(chunks, false) + EncodeRecord(Plain(STDIN, REQUEST_ID, c, 0))
    ensures StdinWire(chunks, true) == StdinWire(chunks, false) + EncodeRecord(STDIN_EOF)
  {
    hide EncodeRecord, EncodeAll;
    var rs := StdinRecords(chunks);
    assert StdinRecords(chunks + [c]) == rs + [Plain(STDIN, REQUEST_ID, c, 0)];
    Unit(rs);
    Unit(StdinRecords(chunks + [c]));
    EncodeAllSnoc(rs, Plain(STDIN, REQUEST_ID, c, 0));
    EncodeAllSnoc(rs, STDIN_EOF);
  }

  /** The next read's record, with the end of the stream behind it if it was empty or the last. */
  lemma NextRead(chunks: seq<seq<byte>>, c: seq<byte>, last: bool)
    requires c == [] ==> !last
    ensures StdinWire(if c == [] then chunks else chunks + [c], c == [] || last)
            == StdinWire(chunks, false)
               + (EncodeRecord(Plain(STDIN, REQUEST_ID, c, 0)) + if last then EncodeRecord(STDIN_EOF) else [])
  {
    hide EncodeRecord, StdinWire;
    var r := EncodeRecord(Plain(STDIN, REQUEST_ID, c, 0));
    StdinWireGrows(chunks, c);
    StdinWireGrows(chunks + [c], []);
    Assoc(StdinWire(chunks, false), r, EncodeRecord(STDIN_EOF));
    Unit(r);
  }

  lemma StdinFrame(chunk: seq<byte>)
    requires |chunk| <= MAX_LENGTH
    ensures MakeHeader(STDIN, REQUEST_ID, |chunk|, 0) + chunk == EncodeRecord(Plain(STDIN, REQUEST_ID, chunk, 0))
  {
  }

  /** A read's record, and the one that ends the stream. */
  lemma StdinBytesOnWire(chunk: seq<byte>)
    requires |chunk| <= MAX_LENGTH
    ensures EncodeRecord(Plain(STDIN, REQUEST_ID, chunk, 0))
            == [1, 5, 0, 1, |chunk| / 256, |chunk| % 256, 0, 0] + chunk
    ensures EncodeRecord(STDIN_EOF) == [1, 5, 0, 1, 0, 0, 0, 0]
  {
    RecordBytes(Plain(STDIN, REQUEST_ID, chunk, 0));
    Unit([1, 5, 0, 1, |chunk| / 256, |chunk| % 256, 0, 0] + chunk);
    EmptyRecordBytes(STDIN, REQUEST_ID);
  }

  // ---------------------------------------------------------------- what a run of the event loop means

  /** What happens on this side: standard input or the socket is ready, or has failed; or an answer comes. */
  datatype Event =
    | Stdin(chunk: seq<byte>)
    | StdinFailed(osErrno: nat)
    | Writable(count: nat)
    | WriteFailed(osErrno: nat)
    | Readable

  /** Bytes of standard input yet expected, what has been read, and how much of it is yet to be written. */
  datatype Flow = Flow(left: int, chunks: seq<seq<byte>>, done: bool, unsent: nat)

  /** Impossible: an event came that nothing was pending for, or brought more than was asked for. */
  datatype Course = Going(flow: Flow) | Ended(code: nat) | Overrun | Impossible

  function Start(contentLength: int): Flow {
    Flow(contentLength, [], contentLength <= 0, if contentLength <= 0 then HEADER_LEN else 0)
  }

  /** The last read leaves no room for the header that ends the stream. */
  predicate NoRoom(left: int, chunk: seq<byte>) {
    left <= |chunk| && |chunk| > BUFFLEN - 2 * HEADER_LEN
  }

  /** One event: a read waits for an empty buffer, a write for a filled one. */
  function Happens(f: Flow, e: Event): Course {
    match e
    case Readable => Going(f)
    case Stdin(c) =>
      if f.unsent > 0 || f.done || |c| > BUFFLEN - HEADER_LEN then Impossible
      else if NoRoom(f.left, c) then Overrun
      else
        Going(Flow(f.left - |c|, if c == [] then f.chunks else f.chunks + [c], c == [] || f.left <= |c|,
                   HEADER_LEN + |c| + if f.left <= |c| then HEADER_LEN else 0))
    case StdinFailed(code) => if f.unsent > 0 || f.done then Impossible else Ended(code)
    case Writable(count) =>
      if f.unsent == 0 || count > f.unsent then Impossible else Going(f.(unsent := f.unsent - count))
    case WriteFailed(code) => if f.unsent == 0 then Impossible else Ended(code)
  }

  function Play(contentLength: int, events: seq<Event>): Course {
    if events == [] then Going(Start(contentLength))
    else
      match Play(contentLength, events[..|events| - 1])
      case Going(f) => Happens(f, events[|events| - 1])
      case c => c
  }

  /** Everything read has been written, and there is nothing more to read. */
  predicate AtRest(c: Course) {
    c.Going? && c.flow.done && c.flow.unsent == 0
  }

  /** All the bytes that came on standard input. */
  function StdinBytes(events: seq<Event>): seq<byte> {
    if events == [] then []
    else
      var e := events[|events| - 1];
      StdinBytes(events[..|events| - 1]) + if e.Stdin? then e.chunk else []
  }

  /** A run that has not stopped has taken in exactly what came, and is done exactly when it should be. */
  lemma {:induction false} PlayTakesAll(contentLength: int, events: seq<Event>)
    requires Play(contentLength, events).Going?
    ensures var f := Play(contentLength, events).flow;
            && Flatten(f.chunks) == StdinBytes(events) && f.left == contentLength - |StdinBytes(events)|
            && (f.done <==> contentLength <= |StdinBytes(events)| || Stdin([]) in events)
  {
    if events != [] {
      var n := |events| - 1;
      var before, e := events[..n], events[n];
      assert events == before + [e];
      PlayTakesAll(contentLength, before);
      var f := Play(contentLength, before).flow;
      Unit(StdinBytes(before));
      if e.Stdin? {
        FlattenSnoc(f.chunks, e.chunk);
      }
    }
  }

  /** A last read of the whole buffer makes WriteStdinEof write behind it. */
  lemma LastReadTooLong(chunk: seq<byte>)
    requires |chunk| == 8184
    ensures Play(|chunk|, [Stdin(chunk)]) == Overrun
  {
    var events := [Stdin(chunk)];
    assert events[..0] == [];
  }

  class Forwarder {
    const fromWS: array<byte>
    var next: nat
    var stop: nat

    var bytesToRead: int
    var webServerReadHandlerEOF: bool
    var stdinEofSent: bool
    var wsReadPending: bool
    var fcgiReadPending: bool
    var fcgiWritePending: bool

    /** The armed write's place in the buffer, and what the application server has received. */
    var armedAt: nat
    var armedLen: nat
    var received: seq<byte>

    /** The bridge has exited, or has written behind the buffer. */
    var outcome: Outcome
    var overrun: bool

    /** The non-empty reads so far, and whether the end of the stream has been generated. */
    ghost var chunks: seq<seq<byte>>
    ghost var done: bool

    ghost predicate Running()
      reads this
    {
      outcome == Proceed && !overrun
    }

    ghost function View(): Flow
      requires next <= stop
      reads this
    {
      Flow(bytesToRead, chunks, done, stop - next)
    }

    /** Everything generated is either received or still in the buffer, in order. */
    ghost predicate Loaded()
      reads this, fromWS
    {
      && fromWS.Length == BUFFLEN && next <= stop <= BUFFLEN
      && received + fromWS[next..stop] == StdinWire(chunks, done)
      && Sized(chunks)
      && (next == stop ==> next == 0)
      && (wsReadPending ==> stop == 0 && !fcgiWritePending && !done)
      && (fcgiWritePending ==> next < stop && armedAt == next && armedLen == stop - next)
      && done == (webServerReadHandlerEOF || stdinEofSent)
      && (stdinEofSent <==> bytesToRead <= 0)
    }

    /** Between events: what is in the buffer is being written, and an empty buffer is being filled. */
    ghost predicate Valid()
      reads this, fromWS
    {
      && Loaded()
      && fcgiReadPending
      && (!fcgiWritePending ==> stop == 0)
      && (!fcgiWritePending && !done ==> wsReadPending)
    }

    /** The start of main's event loop. */
    constructor (contentLength: int)
      ensures Valid() && Running() && View() == Start(contentLength) && received == [] && fresh(fromWS)
    {
      hide StdinWire, EncodeRecord, Plain;
      fromWS := new byte[BUFFLEN];
      next, stop, bytesToRead := 0, 0, contentLength;
      webServerReadHandlerEOF, stdinEofSent, done := false, false, false;
      wsReadPending, fcgiReadPending, fcgiWritePending := false, false, false;
      armedAt, armedLen, received, chunks := 0, 0, [], [];
      outcome, overrun := Proceed, false;
      new;
      NothingYet();
      Unit(StdinWire([], false));
      if bytesToRead <= 0 {
        WriteStdinEof();
        done := true;
        StdinWireGrows([], []);
      }
      ScheduleIo();
    }

    /** WriteStdinEof; the header needs eight bytes behind `stop`, which the code does not check for. */
    method WriteStdinEof()
      requires fromWS.Length == BUFFLEN && next <= stop <= BUFFLEN && !overrun
      modifies this`stop, this`stdinEofSent, this`overrun, fromWS
      ensures overrun <==> !old(stdinEofSent) && old(stop) + HEADER_LEN > BUFFLEN
      ensures !overrun ==> stdinEofSent
      ensures old(stdinEofSent) ==> stop == old(stop) && fromWS[..] == old(fromWS[..])
      ensures !old(stdinEofSent) && !overrun ==>
                stop == old(stop) + HEADER_LEN
                && fromWS[next..stop] == old(fromWS[next..stop]) + EncodeRecord(STDIN_EOF)
    {
      hide MakeHeader, EncodeRecord;
      if stdinEofSent {
        return;
      }
      if stop + HEADER_LEN > BUFFLEN {
        overrun := true;
        return;
      }
      EofHeader(STDIN, REQUEST_ID);
      PutHeader(stop, MakeHeader(STDIN, REQUEST_ID, 0, 0));
      stop := stop + HEADER_LEN;
      stdinEofSent := true;
    }

    method PutHeader(at: nat, h: seq<byte>)
      requires |h| == HEADER_LEN && at + HEADER_LEN <= fromWS.Length
      modifies fromWS
      ensures fromWS[at..at + HEADER_LEN] == h
      ensures forall i :: 0 <= i < fromWS.Length && !(at <= i < at + HEADER_LEN) ==> fromWS[i] == old(fromWS[i])
    {
      forall i | 0 <= i < HEADER_LEN {
        fromWS[at + i] := h[i];
      }
    }

    method ScheduleIo()
      requires Loaded()
      modifies this`fcgiWritePending, this`fcgiReadPending, this`wsReadPending, this`armedAt, this`armedLen
      ensures Valid()
    {
      hide StdinWire;
      if !fcgiWritePending && stop - next != 0 {
        armedAt, armedLen := next, stop - next;
        fcgiWritePending := true;
      }
      if !fcgiReadPending {
        fcgiReadPending := true;
      }
      if bytesToRead > 0 && !webServerReadHandlerEOF && !wsReadPending && !fcgiWritePending && next == 0 {
        wsReadPending := true;
      }
    }

    /** Standard input is readable: OS_DoIo reads behind the header's place and calls WebServerReadHandler. */
    method StdinReadable(chunk: seq<byte>)
      requires Valid() && Running() && wsReadPending
      requires |chunk| <= BUFFLEN - HEADER_LEN
      modifies this, fromWS
      ensures outcome == Proceed && (overrun <==> NoRoom(old(bytesToRead), chunk))
      ensures !overrun ==> Valid() && Going(View()) == Happens(old(View()), Stdin(chunk)) && received == old(received)
    {
      hide StdinWire;
      forall i | 0 <= i < |chunk| {
        fromWS[HEADER_LEN + i] := chunk[i];
      }
      assert fromWS[HEADER_LEN..HEADER_LEN + |chunk|] == chunk;
      WebServerReadHandler(|chunk|, 0);
    }

    /** The header goes in front of the bytes just read. */
    method FrameRead(bytesRead: nat)
      requires fromWS.Length == BUFFLEN && next == 0 && HEADER_LEN + bytesRead <= BUFFLEN
      modifies this`stop, fromWS
      ensures stop == HEADER_LEN + bytesRead
      ensures fromWS[next..stop]
              == EncodeRecord(Plain(STDIN, REQUEST_ID, old(fromWS[HEADER_LEN..HEADER_LEN + bytesRead]), 0))
    {
      hide MakeHeader, EncodeRecord;
      ghost var chunk := fromWS[HEADER_LEN..HEADER_LEN + bytesRead];
      PutHeader(0, MakeHeader(STDIN, REQUEST_ID, bytesRead, 0));
      stop := HEADER_LEN + bytesRead;
      StdinFrame(chunk);
      assert fromWS[next..stop] == MakeHeader(STDIN, REQUEST_ID, bytesRead, 0) + chunk;
    }

    /** WebServerReadHandler, with the read's count or its error. */
    method WebServerReadHandler(bytesRead: int, osErrno: nat)
      requires Valid() && Running() && wsReadPending && HEADER_LEN + bytesRead <= BUFFLEN
      modifies this, fromWS
      ensures bytesRead < 0 ==>
                outcome == Exit(osErrno) && !overrun && received == old(received) && chunks == old(chunks)
      ensures bytesRead >= 0 ==>
                var chunk := old(fromWS[HEADER_LEN..HEADER_LEN + bytesRead]);
                && outcome == Proceed && (overrun <==> NoRoom(old(bytesToRead), chunk))
                && (!overrun ==>
                      Valid() && Going(View()) == Happens(old(View()), Stdin(chunk)) && received == old(received))
    {
      hide StdinWire;
      assert next == stop && next == 0 && wsReadPending;
      wsReadPending := false;
      if bytesRead < 0 {
        outcome := Exit(osErrno);
        return;
      }
      TakeRead(bytesRead);
    }

    /** The bytes just read become a record, with the end of the stream behind the last. */
    method TakeRead(bytesRead: nat)
      requires Loaded() && Running() && !wsReadPending && !fcgiWritePending && fcgiReadPending && !done && stop == 0
      requires HEADER_LEN + bytesRead <= BUFFLEN
      modifies this, fromWS
      ensures outcome == Proceed && bytesToRead == old(bytesToRead) - bytesRead
      ensures overrun <==> bytesToRead <= 0 && bytesRead > BUFFLEN - 2 * HEADER_LEN
      ensures !overrun ==>
                && Valid() && received == old(received)
                && chunks == (if bytesRead == 0 then old(chunks)
                              else old(chunks) + [old(fromWS[HEADER_LEN..HEADER_LEN + bytesRead])])
                && done == (bytesRead == 0 || bytesToRead <= 0)
                && stop - next == HEADER_LEN + bytesRead + if bytesToRead <= 0 then HEADER_LEN else 0
    {
      hide StdinWire, EncodeRecord, Plain, Sized;
      ghost var chunk := fromWS[HEADER_LEN..HEADER_LEN + bytesRead];
      assert fromWS[next..stop] == [];
      Unit(received);
      NextRead(chunks, chunk, bytesToRead <= bytesRead);
      SizedSnoc(chunks, chunk);
      FillBuffer(bytesRead);
      if overrun {
        return;
      }
      chunks := if bytesRead == 0 then chunks else chunks + [chunk];
      done := webServerReadHandlerEOF || stdinEofSent;
      ScheduleIo();
    }

    /** The header in front, and the end of the stream behind if there is nothing more to read. */
    method FillBuffer(bytesRead: nat)
      requires fromWS.Length == BUFFLEN && next == 0 && stop == 0 && HEADER_LEN + bytesRead <= BUFFLEN
      requires !overrun && !stdinEofSent
      modifies this`stop, this`stdinEofSent, this`overrun, this`bytesToRead, this`webServerReadHandlerEOF, fromWS
      ensures bytesToRead == old(bytesToRead) - bytesRead && webServerReadHandlerEOF == (bytesRead == 0)
      ensures overrun <==> bytesToRead <= 0 && bytesRead > BUFFLEN - 2 * HEADER_LEN
      ensures !overrun ==>
                && stdinEofSent == (bytesToRead <= 0)
                && HEADER_LEN + bytesRead <= stop <= BUFFLEN
                && stop == HEADER_LEN + bytesRead + (if stdinEofSent then HEADER_LEN else 0)
                && fromWS[next..stop]
                   == EncodeRecord(Plain(STDIN, REQUEST_ID, old(fromWS[HEADER_LEN..HEADER_LEN + bytesRead]), 0))
                      + if stdinEofSent then EncodeRecord(STDIN_EOF) else []
    {
      hide EncodeRecord;
      FrameRead(bytesRead);
      Unit(fromWS[next..stop]);
      bytesToRead := bytesToRead - bytesRead;
      webServerReadHandlerEOF := bytesRead == 0;
      if bytesToRead <= 0 {
        WriteStdinEof();
      }
    }

    /** The socket is writable: OS_DoIo writes what was armed, as far as it goes, and calls AppServerWriteHandler. */
    method SocketWritable(count: nat)
      requires Valid() && Running() && fcgiWritePending && count <= armedLen
      modifies this
      ensures Valid() && Running() && Going(View()) == Happens(old(View()), Writable(count))
      ensures received == old(received) + old(fromWS[armedAt..armedAt + count])
    {
      hide StdinWire;
      ghost var w := fromWS[next..stop];
      Assoc(received, w[..count], w[count..]);
      SplitAt(w, count);
      assert fromWS[armedAt..armedAt + count] == w[..count];
      assert fromWS[next + count..stop] == w[count..];
      received := received + fromWS[armedAt..armedAt + count];
      AppServerWriteHandler(count, 0);
    }

    method AppServerWriteHandler(bytesWritten: int, osErrno: nat)
      requires fromWS.Length == BUFFLEN && next < stop <= BUFFLEN && fcgiWritePending && !wsReadPending && Running()
      requires fcgiReadPending
      requires bytesWritten <= stop - next
      requires received + fromWS[next + (if bytesWritten < 0 then 0 else bytesWritten)..stop] == StdinWire(chunks, done)
      requires Sized(chunks)
      requires done == (webServerReadHandlerEOF || stdinEofSent) && (stdinEofSent <==> bytesToRead <= 0)
      modifies this
      ensures received == old(received) && chunks == old(chunks) && !overrun
      ensures bytesWritten < 0 ==> outcome == Exit(osErrno)
      ensures bytesWritten >= 0 ==>
                outcome == Proceed && Valid() && View() == old(View()).(unsent := old(stop - next) - bytesWritten)
    {
      hide StdinWire;
      var length := stop - next;
      assert length > 0 && fcgiWritePending;
      fcgiWritePending := false;
      if bytesWritten < 0 {
        outcome := Exit(osErrno);
        return;
      }
      if bytesWritten < length {
        next := next + bytesWritten;
      } else {
        assert fromWS[next + bytesWritten..stop] == [];
        stop, next := 0, 0;
        assert fromWS[next..stop] == [];
      }
      ScheduleIo();
    }

    /** AppServerReadHandler ends with ScheduleIo too. */
    method AppServerReadable()
      requires Valid() && Running()
      modifies this`fcgiWritePending, this`fcgiReadPending, this`wsReadPending, this`armedAt, this`armedLen
      ensures Valid() && Running() && Going(View()) == Happens(old(View()), Readable)
    {
      hide StdinWire, Sized, Plain;
      fcgiReadPending := false;
      ScheduleIo();
    }

    /** When nothing more is pending towards the server, it has received the whole stream. */
    lemma AllForwarded()
      requires Valid() && !fcgiWritePending && !wsReadPending
      ensures done && received == StdinWire(chunks, true)
    {
    }

    /** The machine is where the course `c` of its events leads. */
    ghost predicate Follows(c: Course)
      reads this, fromWS
    {
      match c
      case Going(f) => Valid() && Running() && View() == f
      case Ended(code) => outcome == Exit(code) && !overrun
      case Overrun => outcome == Proceed && overrun
      case Impossible => false
    }

    /** Any run of the event loop on this side, up to an event that cannot happen. */
    method Run(contentLength: int, events: seq<Event>) returns (ok: bool)
      requires Valid() && Running() && View() == Start(contentLength)
      modifies this, fromWS
      ensures ok <==> Play(contentLength, events) != Impossible
      ensures ok ==> Follows(Play(contentLength, events))
      ensures ok && AtRest(Play(contentLength, events)) ==> received == StdinWire(chunks, true)
    {
      hide StdinWire;
      ok := true;
      for i := 0 to |events|
        invariant Play(contentLength, events[..i]) != Impossible && Follows(Play(contentLength, events[..i]))
      {
        PlayNext(contentLength, events, i);
        if outcome == Proceed && !overrun {
          ok := Handle(events[i]);
          if !ok {
            PlayStopped(contentLength, events, i + 1);
            return;
          }
        }
      }
      assert events[..|events|] == events;
      if AtRest(Play(contentLength, events)) {
        AllForwarded();
      }
    }

    /** One event, if it can happen. */
    method Handle(e: Event) returns (ok: bool)
      requires Valid() && Running()
      modifies this, fromWS
      ensures ok <==> Happens(old(View()), e) != Impossible
      ensures ok ==> Follows(Happens(old(View()), e))
    {
      hide StdinWire;
      match e {
        case Readable =>
          AppServerReadable();
        case Stdin(chunk) =>
          if !wsReadPending || |chunk| > BUFFLEN - HEADER_LEN {
            return false;
          }
          StdinReadable(chunk);
        case StdinFailed(osErrno) =>
          if !wsReadPending {
            return false;
          }
          WebServerReadHandler(-1, osErrno);
        case Writable(count) =>
          if !fcgiWritePending || count > armedLen {
            return false;
          }
          SocketWritable(count);
        case WriteFailed(osErrno) =>
          if !fcgiWritePending {
            return false;
          }
          AppServerWriteHandler(-1, osErrno);
      }
      return true;
    }

    lemma NothingYet()
      ensures StdinWire([], false) == []
    {
    }
  }

  lemma PlayNext(contentLength: int, events: seq<Event>, i: nat)
    requires i < |events|
    ensures Play(contentLength, events[..i + 1])
            == match Play(contentLength, events[..i]) case Going(f) => Happens(f, events[i]) case c => c
  {
    assert events[..i + 1][..i] == events[..i];
  }

  lemma {:induction false} PlayStopped(contentLength: int, events: seq<Event>, i: nat)
    requires i <= |events| && !Play(contentLength, events[..i]).Going?
    ensures Play(contentLength, events) == Play(contentLength, events[..i])
    decreases |events| - i
  {
    hide Play;
    if i < |events| {
      PlayNext(contentLength, events, i);
      PlayStopped(contentLength, events, i + 1);
    } else {
      assert events[..i] == events;
    }
  }
}
