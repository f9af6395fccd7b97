/**
  The life of a request: FCGX_Accept_r, FCGX_Finish_r and FCGX_Free over the connections that
  the operating system hands out.
 */
module Request {
  import opened Seqs
  import opened Protocol
  import opened NameValue
  import opened Environment
  import opened Connection
  import opened ReaderSpec
  import opened InputStream
  import opened OutputStream

  // ---------------------------------------------------------------- what an attempt comes to

  const ROLE_NAME := "FCGI_ROLE"

  function RoleString(role: int): string
    requires RESPONDER <= role <= FILTER
  {
    if role == RESPONDER then "RESPONDER" else if role == AUTHORIZER then "AUTHORIZER" else "FILTER"
  }

  function RolePair(role: int): Pair
    requires RESPONDER <= role <= FILTER
  {
    Pair(Bytes(ROLE_NAME), Bytes(RoleString(role)))
  }

  /** Lost: the library has overrun an answer on this connection, and what follows is not known. */
  datatype Attempt =
    | Rejected
    | Lost
    | Accepted(id: int, keep: bool, role: int, env: seq<seq<byte>>, replies: seq<Record>, stop: Stop)

  /** The PARAMS stream of a request that has begun. */
  function ParamsRun(id: int, eofCode: int, rest: seq<byte>): Run {
    Future(Context(PARAMS, id, true, 0, eofCode), 0, 0, false, rest)
  }

  /** The stream up to BEGIN_REQUEST. */
  function BeginRun(id0: int, eofCode: int, wire: seq<byte>): Run {
    Future(Context(0, id0, false, 0, eofCode), 0, 0, false, wire)
  }

  /** One turn of FCGX_Accept_r's loop on a connection that will send `wire`, the request id having been `id0`. */
  function AttemptOn(id0: int, eofCode: int, wire: seq<byte>): Attempt {
    var b := BeginRun(id0, eofCode, wire);
    if b.bytes == [] && b.stop.Overrun? then Lost
    else if b.bytes != [] || !b.stop.Began? || !(RESPONDER <= b.stop.role <= FILTER) then Rejected
    else
      var p := ParamsRun(b.stop.id, eofCode, b.stop.rest);
      var d := Decode(p.bytes);
      if d.outcome != BadLength && p.stop.Overrun? then Lost
      else if d.outcome != Complete then Rejected
      else Accepted(b.stop.id, b.stop.keep, b.stop.role, [Entry(RolePair(b.stop.role))] + Entries(d.pairs),
                    b.replies + p.replies, p.stop)
  }

  /** The request id that such a turn leaves behind: that of BEGIN_REQUEST, if it has seen one. */
  function IdOf(id0: int, eofCode: int, wire: seq<byte>): int {
    IdAfter(id0, BeginRun(id0, eofCode, wire))
  }

  /** The attempt, by what has come before PARAMS. */
  lemma Judged(id0: int, eofCode: int, wire: seq<byte>)
    ensures var a, b := AttemptOn(id0, eofCode, wire), BeginRun(id0, eofCode, wire);
            if b.bytes != [] || !b.stop.Began? || !(RESPONDER <= b.stop.role <= FILTER) then !a.Accepted?
            else
              var p := ParamsRun(b.stop.id, eofCode, b.stop.rest);
              var d := Decode(p.bytes);
              && (a.Accepted? ==> !p.stop.Overrun? && d.outcome == Complete)
              && (a == Rejected ==> d.outcome != Complete)
              && (a.Accepted? ==>
                    a == Accepted(b.stop.id, b.stop.keep, b.stop.role,
                                  [Entry(RolePair(b.stop.role))] + Entries(d.pairs), b.replies + p.replies, p.stop))
  {
    hide Future, Decode, Entry, Entries, RolePair;
  }

  // ---------------------------------------------------------------- who holds the connection

  datatype Event = Opened(fd: nat) | Shut(fd: nat)

  datatype Holder = Nobody | Holding(fd: nat) | Violated

  /** Replays the opening and closing of connections; Violated if two are open at once or one is closed twice. */
  function Replay(log: seq<Event>): Holder {
    if log == [] then Nobody
    else
      match (Replay(log[..|log| - 1]), log[|log| - 1])
      case (Nobody, Opened(fd)) => Holding(fd)
      case (Holding(k), Shut(fd)) => if k == fd then Nobody else Violated
      case _ => Violated
  }

  lemma ReplaySnoc(log: seq<Event>, e: Event)
    ensures (log + [e])[..|log|] == log && (log + [e])[|log|] == e
  {
  }

  lemma OpensWell(log: seq<Event>, fd: nat)
    requires Replay(log) == Nobody
    ensures Replay(log + [Opened(fd)]) == Holding(fd)
  {
    ReplaySnoc(log, Opened(fd));
  }

  /** In a log that replays well, every opening of a connection comes when all earlier ones have been shut. */
  lemma {:induction false} OneAtATime(log: seq<Event>, i: nat)
    requires Replay(log) != Violated && i < |log| && log[i].Opened?
    ensures Replay(log[..i]) == Nobody
    decreases |log|
  {
    var before := log[..|log| - 1];
    if i < |before| {
      assert before[i] == log[i] && before[..i] == log[..i];
      OneAtATime(before, i);
    } else {
      assert log[..i] == before;
    }
  }

  /**
    What OS_Accept comes to: a connection, with what it will send, how it ends, how often it
    stalls, and whether writes to it may fail, or writes and reads be short; or a failure.
   */
  datatype Arrival =
    | Peer(inbound: seq<byte>, endErrno: nat, stalls: nat, reliable: bool, prompt: bool, eager: bool)
    | Refusal(osErrno: nat)

  /** FCGX_Accept_r's return code when accepting fails. */
  function RefusalCode(osErrno: nat): (rc: int)
    ensures rc < 0
  {
    if osErrno > 0 then 0 - osErrno else -9999
  }

  /** `count` connections opened after number `fd`, one after the other; all are shut again, but perhaps the last. */
  function Trail(fd: nat, count: nat, open: bool): seq<Event> {
    if count == 0 then []
    else Trail(fd, count - 1, false) + [Opened(fd + count)] + if open then [] else [Shut(fd + count)]
  }

  /** An attempt on a new connection: the request id before it, and whether a write failed on it. */
  datatype Tried = Tried(id: int, broken: bool)

  class Acceptor {
    /** The current connection, or the request data that the last one left behind. */
    var link: Link
    var open: bool

    /** Connections are numbered as they are accepted. */
    var fd: nat

    var input: Reader?
    var out: Writer?
    var err: Writer?
    var params: Params?

    /** What OS_Accept will yet come to, and what has been opened and shut. */
    var arrivals: seq<Arrival>
    var log: seq<Event>

    /** Some attempt so far was lost. */
    ghost var lost: bool

    ghost predicate Streams()
      reads this, link, out, err
    {
      && link.Synced()
      && (out != null ==> out.link == link && out.Valid())
      && (err != null ==> err.link == link && err.Valid())
      && (out != null && err != null ==> out != err && out.buff != err.buff)
      && (input != null ==>
            && input.link == link
            && (out != null ==> out.buff != input.buff) && (err != null ==> err.buff != input.buff))
    }

    /** At most one accepted connection is open, and it is the current one. */
    ghost predicate Valid()
      reads this, link, out, err
    {
      Streams() && Replay(log) == if open then Holding(fd) else Nobody
    }

    /** FCGX_InitRequest. */
    constructor (arrivals: seq<Arrival>)
      ensures Valid() && !open && fd == 0 && this.arrivals == arrivals && log == [] && !lost && fresh(link)
      ensures input == null && out == null && err == null && !link.keepConnection && link.reliable
      ensures link.appStatus == 0 && link.requestId == 0
      ensures link.inbound == [] && link.endErrno == 0
    {
      link := new Link([], 0, 0, true, true, true);
      open, fd, this.arrivals, log, lost := false, 0, arrivals, [], false;
      input, out, err, params := null, null, null, null;
    }

    /** FCGX_Free. */
    method Free(close: bool)
      requires Valid()
      modifies this
      ensures Valid() && link == old(link) && arrivals == old(arrivals) && fd == old(fd) && lost == old(lost)
      ensures input == null && out == null && err == null && params == null
      ensures open == (old(open) && !close)
      ensures log == old(log) + if close && old(open) then [Shut(fd)] else []
    {
      input, out, err, params := null, null, null, null;
      if close && open {
        ReplaySnoc(log, Shut(fd));
        log := log + [Shut(fd)];
        open := false;
      } else {
        Unit(log);
      }
    }

    /**
      FCGX_Finish_r: the streams are closed, err first, and the connection is given up unless it
      is to be kept and no stream has failed.
     */
    method Finish() returns (failed: bool)
      requires Valid()
      modifies this, link, out, err, if out == null then {} else {out.buff}, if err == null then {} else {err.buff}
      ensures Valid() && link == old(link) && arrivals == old(arrivals) && fd == old(fd) && lost == old(lost)
      ensures input == null && out == null && err == null && params == null
      ensures failed <==>
                && old(input) != null
                && (old(input).errno != 0 || (old(out) != null && old(out).errno != 0)
                    || (old(err) != null && old(err).errno != 0))
      ensures Reported(old(Now()), failed)
      ensures open == (old(open) && link.keepConnection && !failed)
      ensures log == old(log) + if old(open) && !open then [Shut(fd)] else []
      ensures old(input) != null && old(out) != null && old(err) != null && !link.writeFailed ==>
                link.sent == old(link.sent) + old(err.Closing(link.nWriters == 1))
                             + old(out.Closing(link.nWriters - (if err.wasFCloseCalled then 0 else 1) == 1))
      ensures link.keepConnection == old(link.keepConnection) && link.inbound == old(link.inbound)
              && link.requestId == old(link.requestId) && link.endErrno == old(link.endErrno)
              && link.appStatus == old(link.appStatus)
      ensures old(link.writeFailed) ==> link.writeFailed
    {
      hide Frame, CloseRecords;
      var close := !link.keepConnection;
      failed := false;
      if input != null {
        var rc1, rc2 := 0, 0;
        if err != null {
          rc1 := err.FClose();
        }
        if out != null {
          rc2 := out.FClose();
        }
        failed := rc1 != 0 || rc2 != 0 || input.errno != 0;
        close := close || failed;
      }
      Free(close);
    }

    /** What a successful attempt leaves behind: the environment, and an input stream at the start of STDIN. */
    ghost predicate Holds(a: Attempt)
      requires a.Accepted?
      reads this, link, input, params, if input == null then {} else {input.buff},
            if params == null then {} else {params.vec}
    {
      && input != null && input.link == link && input.Valid() && !input.isClosed
      && params != null && params.Valid() && params.Contents() == a.env
      && link.isBeginProcessed && link.requestId == a.id && link.role == a.role && link.keepConnection == a.keep
      && (a.stop.Eof? ==>
            && input.errno == 0
            && input.Unread() == Future(Context(STDIN, a.id, true, 0, EofCode(link.endErrno)), 0, 0, false,
                                        a.stop.rest))
      && (a.stop.Failed? ==> input.errno == a.stop.errno)
    }

    /** The input stream is ready for the application. */
    ghost predicate Readable(r: Reader)
      reads r, r.link
    {
      r.Valid() && !r.isClosed && !r.eorStop && r.rtype == STDIN && r.link.isBeginProcessed && r.buff.Length == 8192
    }

    /** One turn of FCGX_Accept_r's loop, on the open connection. */
    method Try() returns (ok: bool)
      requires Valid() && open && out == null && err == null
      modifies this`input, this`params, this`lost, link
      ensures Valid() && (input == null || fresh(input)) && (input != null ==> fresh(input.buff))
      ensures link.endErrno == old(link.endErrno) && link.appStatus == old(link.appStatus)
      ensures lost == (old(lost) || old(Held()) == Lost)
      ensures (old(link.writeFailed) ==> link.writeFailed) && (link.writeFailed ==> !link.reliable)
      ensures ok ==> input != null && Readable(input)
      ensures var id := IdOf(old(link.requestId), EofCode(old(link.endErrno)), old(link.inbound));
              && (!link.writeFailed ==> link.requestId == id)
              && (!old(link.writeFailed) ==>
                    link.requestId == id || (link.writeFailed && link.requestId == old(link.requestId)))
      ensures !link.writeFailed ==>
                var a := AttemptOn(old(link.requestId), EofCode(old(link.endErrno)), old(link.inbound));
                a != Lost ==> ok == a.Accepted? && (ok ==> Holds(a) && link.sent == old(link.sent) + a.replies)
    {
      hide Future, Decode, Entry, Entries, Bytes, RolePair, EncodeAll, Replay, EofCode, Environment.Strings,
           Environment.Terminated,
           AttemptOn, ParamsRun, Holds, IdAfter;
      ghost var id0, wire, sent0, eofCode := link.requestId, link.inbound, link.sent, EofCode(link.endErrno);
      lost := lost || AttemptOn(id0, eofCode, wire) == Lost;
      var reader, begun := Start();
      if !link.writeFailed {
        Judged(id0, eofCode, wire);
      }
      if !begun || !(RESPONDER <= link.role <= FILTER) {
        return false;
      }
      ghost var rest := reader.Tail(reader.rdNext);
      ghost var id, keep, role := link.requestId, link.keepConnection, link.role;
      ok := ReadEnvironment(reader);
      if !link.writeFailed && ok {
        ghost var b, p := BeginRun(id0, eofCode, wire), ParamsRun(id, eofCode, rest);
        Assoc(sent0, b.replies, p.replies);
        if !p.stop.Overrun? {
          ghost var env := [Entry(RolePair(role))] + Entries(Decode(p.bytes).pairs);
          HoldsAnyReplies(Accepted(id, keep, role, env, [], p.stop), b.replies + p.replies);
        }
      }
    }

    /** Which answers were written does not matter to what is left behind. */
    lemma HoldsAnyReplies(a: Attempt, replies: seq<Record>)
      requires a.Accepted? && Holds(a)
      ensures Holds(a.(replies := replies))
    {
      hide Future, Environment.Strings, Environment.Terminated;
    }

    /** A new reader looks for BEGIN_REQUEST. */
    method Start() returns (reader: Reader, begun: bool)
      requires Valid() && open && out == null && err == null
      modifies this`input, link
      ensures Valid() && input == reader && fresh(reader) && fresh(reader.buff) && reader.Shape()
      ensures reader.buff.Length == 8192
      ensures begun == link.isBeginProcessed
      ensures link.endErrno == old(link.endErrno) && link.appStatus == old(link.appStatus)
      ensures old(link.writeFailed) ==> link.writeFailed
      ensures begun ==> reader.errno == 0
      ensures link.writeFailed && !old(link.writeFailed) ==> link.requestId == old(link.requestId)
      ensures !link.writeFailed ==>
                var b := BeginRun(old(link.requestId), EofCode(link.endErrno), old(link.inbound));
                && begun == (b.bytes == [] && b.stop.Began?)
                && link.requestId == IdAfter(old(link.requestId), b)
                && (begun ==>
                      && link.requestId >= 0 && link.role >= 0
                      && b.stop == Began(link.requestId, link.keepConnection, link.role, reader.Tail(reader.rdNext))
                      && link.sent == old(link.sent) + b.replies)
    {
      hide Future, EncodeAll, Replay, EofCode;
      link.isBeginProcessed := false;
      reader := new Reader(link, 8192, 0);
      input := reader;
      assert reader.Unread() == BeginRun(link.requestId, EofCode(link.endErrno), link.inbound) by {
        reader.NothingDelivered();
      }
      begun := reader.ReadBegin();
    }

    /** The rest of the turn: the role and the PARAMS stream make the environment. */
    method ReadEnvironment(reader: Reader) returns (ok: bool)
      requires Valid() && input == reader && reader.Shape() && link.isBeginProcessed
      requires out == null && err == null
      requires RESPONDER <= link.role <= FILTER && reader.errno == 0 && reader.buff.Length == 8192
      modifies this`params, link, reader, reader.buff
      ensures Valid() && link.requestId == old(link.requestId)
      ensures link.endErrno == old(link.endErrno) && link.appStatus == old(link.appStatus)
      ensures old(link.writeFailed) ==> link.writeFailed
      ensures ok ==> Readable(reader)
      ensures !link.writeFailed ==>
                var p := ParamsRun(old(link.requestId), EofCode(link.endErrno), old(reader.Tail(reader.rdNext)));
                var d := Decode(p.bytes);
                && ok == (d.outcome == Complete)
                && (ok ==> link.sent == old(link.sent) + p.replies)
                && (ok && !p.stop.Overrun? ==>
                      Holds(Accepted(old(link.requestId), old(link.keepConnection), old(link.role),
                                     [Entry(RolePair(old(link.role)))] + Entries(d.pairs), [], p.stop)))
    {
      hide Future, Decode, Entry, Entries, Bytes, RolePair;
      params := new Params(30);
      params.PutParam(Entry(RolePair(link.role)));
      Unit([Entry(RolePair(link.role))]);
      ok := reader.ReadParamsStream(params);
    }

    /**
      FCGX_Accept_r: finish the last request, then try connections until one yields a request
      or the operating system fails to hand out another.
     */
    method Accept() returns (rc: int, failed: bool, ghost first: Tried, ghost tries: seq<Tried>, ghost a: Attempt)
      requires Valid()
      modifies this, link, out, err, if out == null then {} else {out.buff}, if err == null then {} else {err.buff}
      ensures Valid() && (link == old(link) || fresh(link)) && link.appStatus == old(link.appStatus)
      ensures Reported(old(Now()), failed)
      ensures var s := Given(old(Now()), !old(link.keepConnection) || failed);
              && lost == LosesOn(s, tries)
              && (!lost ==>
                    && AcceptStep(s, rc, Now()) && Attempts(s, rc, arrivals, first, tries)
                    && Chained(s, first, tries, link.requestId))
      ensures rc <= 0 && (rc < 0 ==> input == null && out == null && err == null)
      ensures rc == 0 ==>
                && input != null && Readable(input) && out != null && err != null
                && fresh({input, input.buff, out, err, out.buff, err.buff})
                && out.wtype == STDOUT && err.wtype == STDERR && out.Unused() && err.Unused() && link.nWriters == 2
                && 8184 <= out.buff.Length <= 8192 && 504 <= err.buff.Length <= 512
      ensures rc == 0 ==>
                Won(old(Held()), old(arrivals), arrivals, tries, a, link.writeFailed, link.reliable, link.endErrno)
      ensures rc == 0 && !link.writeFailed && !lost ==>
                a.Accepted? && Holds(a) && (old(arrivals) != arrivals ==> link.sent == a.replies)
    {
      hide Future, Decode, Replay, AttemptOn, IdOf, Holds, AcceptStep, Attempts, Chained, LosesOn, EncodeAll, EofCode,
           Writer.Closing, Writer.Waiting,
           Acceptor.Streams, Won, Writer.Unused, Writer.Valid, Readable;
      failed := Finish();
      rc, first, tries, a := Seek();
      if rc == 0 {
        OpenStreams(a);
      }
    }

    /** Any of the calls a program makes. */
    method Perform(call: Call) returns (ghost r: Report)
      requires Valid()
      modifies this, link, out, err, if out == null then {} else {out.buff}, if err == null then {} else {err.buff}
      ensures Valid() && (link == old(link) || fresh(link))
      ensures lost == LosesIn(call, r, old(Now())) && (!lost ==> Step(call, r, old(Now()), Now()))
      ensures out != null ==> fresh(out) && fresh(out.buff)
      ensures err != null ==> fresh(err) && fresh(err.buff)
    {
      hide Replay, AcceptStep, Attempts, Chained, AttemptOn, IdOf, Won, Holds, LosesOn, Acceptor.Streams,
           Writer.Closing;
      match call {
        case AcceptNext =>
          ghost var first, tries, a;
          var rc, failed;
          rc, failed, first, tries, a := Accept();
          r := Returned(failed, rc, first, tries);
        case FinishRequest =>
          var failed := Finish();
          r := Finished(failed);
        case FreeRequest(close) =>
          Free(close);
          r := Freed;
      }
    }

    /** What an attempt on the connection held comes to. */
    ghost function Held(): Attempt
      reads this, link
    {
      AttemptOn(link.requestId, EofCode(link.endErrno), link.inbound)
    }

    /** The request id that it leaves behind. */
    ghost function HeldId(): int
      reads this, link
    {
      IdOf(link.requestId, EofCode(link.endErrno), link.inbound)
    }

    /** What the log of connections and the outside world show of the object. */
    ghost function Now(): Snap
      reads this, link, input
    {
      Snap(open, fd, link.keepConnection, link.reliable, input != null && input.errno != 0,
           link.requestId, Held(), HeldId(), lost, log, arrivals)
    }

    /** The retry loop. */
    method Seek() returns (rc: int, ghost first: Tried, ghost tries: seq<Tried>, ghost a: Attempt)
      requires Valid() && out == null && err == null && input == null
      modifies this, link
      ensures Valid() && out == null && err == null && (link == old(link) || fresh(link))
      ensures link.appStatus == old(link.appStatus)
      ensures lost == LosesOn(old(Now()), tries)
      ensures AcceptStep(old(Now()), rc, Now()) && Attempts(old(Now()), rc, arrivals, first, tries)
      ensures Chained(old(Now()), first, tries, link.requestId)
      ensures rc <= 0 && (rc < 0 ==> input == null)
      ensures rc == 0 ==> input != null && Readable(input) && fresh(input) && fresh(input.buff)
      ensures rc == 0 ==>
                Won(old(Held()), old(arrivals), arrivals, tries, a, link.writeFailed, link.reliable, link.endErrno)
      ensures rc == 0 && !link.writeFailed && !lost ==>
                a.Accepted? && Holds(a) && (old(arrivals) != arrivals ==> link.sent == a.replies)
    {
      hide Future, Decode, Replay, AttemptOn, IdOf, Holds, Entries, Trail, AcceptStep, Attempts, Sought, NoneTaken,
           Chained, LosesOn, EofCode, EncodeAll,
           Acceptor.Streams, RefusalCode, Readable, ComesTo, Won, Tries;
      ghost var s := Now();
      first, tries := Tried(link.requestId, false), [];
      ghost var k := 0;
      a := Held();
      SeekStarts(s);
      SeekArrivals(s, k, s);
      while true
        invariant Valid() && out == null && err == null && input == null && link.appStatus == old(link.appStatus)
        invariant lost == if open then s.lost else LosesOn(s, tries)
        invariant link == old(link) || fresh(link)
        invariant 0 <= k <= |s.arrivals| && arrivals == s.arrivals[k..] && Sought(s, k, Now())
        invariant open ==> k == 0 && AtTry(s, 0)
        invariant |tries| == k && (!open ==> NoneTaken(s, first, tries) && Chained(s, first, tries, link.requestId))
        decreases |arrivals|, if open then 1 else 0
      {
        if !open {
          var refused;
          refused, rc := Reach(s, k, first, tries);
          if refused {
            return rc, first, tries, a;
          }
          k := k + 1;
        }
        var ok;
        ok, first, tries, a := Go(s, k, first, tries);
        if ok {
          return 0, first, tries, a;
        }
      }
    }

    /** The connection that is open is the one held, or the `k`th that arrived. */
    ghost predicate AtTry(s: Snap, k: nat)
      reads this, link
    {
      if k == 0 then
        s.open && Held() == s.held && HeldId() == s.heldId && link.requestId == s.id && link.reliable == s.reliable
      else
        && k <= |s.arrivals| && s.arrivals[k - 1].Peer? && link.inbound == s.arrivals[k - 1].inbound
        && link.endErrno == s.arrivals[k - 1].endErrno && link.reliable == s.arrivals[k - 1].reliable
        && link.sent == [] && !link.writeFailed
    }

    /** An attempt on that connection, with the account of all attempts so far. */
    method Go(ghost s: Snap, ghost k: nat, ghost first0: Tried, ghost tries0: seq<Tried>)
      returns (ok: bool, ghost first: Tried, ghost tries: seq<Tried>, ghost a: Attempt)
      requires Valid() && open && out == null && err == null && input == null && AtTry(s, k)
      requires Sought(s, k, Now()) && |tries0| == Max(k - 1, 0)
      requires k > 0 ==> NoneTaken(s, first0, tries0) && Chained(s, first0, tries0, link.requestId)
      requires lost == if k == 0 then s.lost else LosesOn(s, tries0)
      modifies this, link
      ensures Valid() && out == null && err == null && link == old(link) && link.appStatus == old(link.appStatus)
      ensures arrivals == old(arrivals) && |tries| == k && lost == LosesOn(s, tries) && open == ok
      ensures Chained(s, first, tries, link.requestId)
      ensures ok ==>
                && AcceptStep(s, 0, Now()) && Attempts(s, 0, arrivals, first, tries)
                && Won(s.held, s.arrivals, arrivals, tries, a, link.writeFailed, link.reliable, link.endErrno)
                && input != null && Readable(input) && fresh(input) && fresh(input.buff)
                && (!link.writeFailed && !lost ==> a.Accepted? && Holds(a) && (k > 0 ==> link.sent == a.replies))
      ensures !ok ==> input == null && Sought(s, k, Now()) && NoneTaken(s, first, tries)
    {
      hide AttemptOn, IdOf, Holds, Trail, AcceptStep, Attempts, Sought, NoneTaken, Chained, LosesOn, EofCode,
           EncodeAll, Replay,
           Acceptor.Streams, Readable, ComesTo, Won, Tries;
      a := Held();
      ghost var id := HeldId();
      if a.Accepted? {
        Unit(a.replies);
      }
      ghost var before := Now();
      SeekArrivals(s, k, before);
      ghost var t;
      ok, t := TryOrShut();
      TriedNow(s, k, t, a, if k > 0 then s.arrivals[k - 1] else Refusal(0));
      ChainOn(s, k, first0, tries0, t, a, id, link.requestId);
      LostToo(s, tries0, t, k, a);
      first, tries := if k > 0 then first0 else t, if k > 0 then tries0 + [t] else tries0;
      if ok {
        SoughtAnyhow(s, k, before, Now());
        SeekTakes(s, k, Now(), first0, tries0, t, a);
        SeekWins(s, k, Now(), tries0, t, a, link.reliable, link.endErrno);
      } else {
        SeekShuts(s, k, before, Now(), first0, tries0, t, a);
      }
    }

    /** One turn of the loop on the open connection, which is shut if the attempt fails. */
    method TryOrShut() returns (ok: bool, ghost t: Tried)
      requires Valid() && open && out == null && err == null && input == null
      modifies this, link
      ensures Valid() && out == null && err == null && link == old(link) && fd == old(fd) && arrivals == old(arrivals)
      ensures t.id == old(link.requestId) && t.broken == link.writeFailed && (t.broken ==> !link.reliable)
      ensures link.endErrno == old(link.endErrno) && link.appStatus == old(link.appStatus)
      ensures open == ok && log == old(log) + if ok then [] else [Shut(fd)]
      ensures if ok then input != null && Readable(input) && fresh(input) && fresh(input.buff) else input == null
      ensures var a := old(Held());
              && lost == (old(lost) || a == Lost)
              && (t.broken || a == Lost || ok == a.Accepted?)
              && (t.broken || link.requestId == old(HeldId()))
              && (old(link.writeFailed) || link.requestId == old(HeldId()) || (t.broken && link.requestId == t.id))
              && (ok && !t.broken && a != Lost ==> Holds(a) && link.sent == old(link.sent) + a.replies)
    {
      hide AttemptOn, IdOf, Holds, Acceptor.Streams, EncodeAll, Replay;
      t := Tried(link.requestId, false);
      ok := Try();
      t := Tried(t.id, link.writeFailed);
      Unit(log);
      if !ok {
        Free(true);
      }
    }

    /** No connection is open: OS_Accept hands one out, or fails. */
    method Reach(ghost s: Snap, ghost k: nat, ghost first: Tried, ghost tries: seq<Tried>)
      returns (refused: bool, rc: int)
      requires Valid() && !open && out == null && err == null && input == null
      requires Sought(s, k, Now()) && |tries| == k && NoneTaken(s, first, tries)
      modifies this`link, this`open, this`fd, this`log, this`arrivals
      ensures Valid() && (link == old(link) || fresh(link))
      ensures link.appStatus == old(link.appStatus) && link.requestId == old(link.requestId)
      ensures refused ==> rc < 0 && !open && AcceptStep(s, rc, Now()) && Attempts(s, rc, arrivals, first, tries)
      ensures !refused ==>
                && open && fresh(link) && link.sent == [] && !link.writeFailed && k < |s.arrivals|
                && arrivals == s.arrivals[k + 1..] && Sought(s, k + 1, Now())
                && s.arrivals[k].Peer? && link.inbound == s.arrivals[k].inbound
                && link.endErrno == s.arrivals[k].endErrno && link.reliable == s.arrivals[k].reliable
    {
      hide Replay, Trail, AcceptStep, Attempts, Sought, NoneTaken, EncodeAll, Acceptor.Streams, RefusalCode;
      ghost var now := Now();
      SeekArrivals(s, k, now);
      rc := 0;
      refused := arrivals == [] || arrivals[0].Refusal?;
      if refused {
        rc := Decline();
        SeekRefused(s, k, now, Now(), rc, first, tries);
      } else {
        OpenNext();
        SeekOpens(s, k, now, Now());
        DropNext(s.arrivals, k);
      }
    }

    /** OS_Accept fails. */
    method Decline() returns (rc: int)
      requires Valid() && (arrivals == [] || arrivals[0].Refusal?)
      modifies this`arrivals
      ensures Valid() && rc < 0
      ensures rc == RefusalCode(if old(arrivals) == [] then 0 else old(arrivals)[0].osErrno)
      ensures arrivals == if old(arrivals) == [] then [] else old(arrivals)[1..]
    {
      if arrivals == [] {
        return RefusalCode(0);
      }
      rc := RefusalCode(arrivals[0].osErrno);
      arrivals := arrivals[1..];
    }

    /** The remaining data structures of the new request. */
    method OpenStreams(ghost a: Attempt)
      requires Valid() && input != null && Readable(input) && out == null && err == null
      requires !link.writeFailed && !lost ==> a.Accepted? && Holds(a)
      modifies this`out, this`err, link`nWriters
      ensures Valid() && out != null && err != null && fresh({out, err, out.buff, err.buff}) && link.nWriters == 2
      ensures Readable(input)
      ensures out.wtype == STDOUT && err.wtype == STDERR && out.Unused() && err.Unused()
      ensures 8184 <= out.buff.Length <= 8192 && 504 <= err.buff.Length <= 512
      ensures !link.writeFailed && !lost ==> a.Accepted? && Holds(a)
    {
      hide Replay, EncodeAll, Holds, Writer.Waiting;
      if !link.writeFailed && !lost {
        HoldsBoth(a);
      }
      var misaligned := *;
      out := new Writer(link, 8192, misaligned, STDOUT);
      misaligned := *;
      err := new Writer(link, 512, misaligned, STDERR);
      link.nWriters := 2;
      if !link.writeFailed && !lost {
        StillHolds(a);
      }
    }

    lemma HoldsBoth(a: Attempt)
      requires a.Accepted? && Holds(a)
      ensures input != null && params != null
    {
    }

    /** New writers leave what the reader has to say untouched. */
    twostate lemma StillHolds(a: Attempt)
      requires a.Accepted? && old(Holds(a)) && link == old(link) && input == old(input) && params == old(params)
      requires input != null && params != null
      requires unchanged(input) && unchanged(input.buff) && unchanged(params) && unchanged(params.vec)
      requires link.Synced() && link.inbound == old(link.inbound) && link.endErrno == old(link.endErrno)
      requires link.isBeginProcessed == old(link.isBeginProcessed) && link.requestId == old(link.requestId)
      requires link.role == old(link.role) && link.keepConnection == old(link.keepConnection)
      ensures Holds(a)
    {
      hide Future, Comes, EofCode, EncodeAll;
      assert input.buff[..] == old(input.buff[..]);
      assert params.vec[..] == old(params.vec[..]);
      assert input.Tail(input.stop) == old(input.Tail(input.stop));
      assert params.Contents() == old(params.Contents());
    }

    /** OS_Accept: the next connection becomes the current one; the request data are carried over. */
    method OpenNext()
      requires Valid() && !open && out == null && err == null && input == null && arrivals != [] && arrivals[0].Peer?
      modifies this`link, this`open, this`fd, this`log, this`arrivals
      ensures Valid() && open && fresh(link) && arrivals == old(arrivals)[1..] && fd == old(fd) + 1
      ensures link.inbound == old(arrivals)[0].inbound && link.endErrno == old(arrivals)[0].endErrno
      ensures link.sent == [] && !link.writeFailed && link.appStatus == old(link.appStatus)
      ensures link.requestId == old(link.requestId) && link.reliable == old(arrivals)[0].reliable
      ensures log == old(log) + [Opened(fd)]
    {
      hide EncodeAll, Writer.Valid, Replay;
      OpensWell(log, fd + 1);
      var p := arrivals[0];
      var l := new Link(p.inbound, p.endErrno, p.stalls, p.reliable, p.prompt, p.eager);
      l.requestId, l.role := link.requestId, link.role;
      l.keepConnection, l.appStatus := link.keepConnection, link.appStatus;
      link, open, fd, arrivals := l, true, fd + 1, arrivals[1..];
      log := log + [Opened(fd)];
    }
  }

  // ---------------------------------------------------------------- runs of calls

  /**
    The connection held, whether it is to be kept, whether writes to it never fail and whether
    its input has failed; the request id, and what an attempt on the connection would come to;
    and leave behind as its id; whether an attempt has been lost; all openings and shuttings; and
    what is yet to arrive.
   */
  datatype Snap = Snap(
    open: bool,
    fd: nat,
    keep: bool,
    reliable: bool,
    inputFailed: bool,
    id: int,
    held: Attempt,
    heldId: int,
    lost: bool,
    log: seq<Event>,
    arrivals: seq<Arrival>)

  /** The streams, and the connection, if one is held, or not, are given up. */
  function Given(s: Snap, close: bool): Snap {
    s.(inputFailed := false, open := s.open && !close, log := s.log + if close && s.open then [Shut(s.fd)] else [])
  }

  /** How many of the first `n` arrivals were connections, the return code being `rc`. */
  function Connections(arrivals: seq<Arrival>, n: nat, rc: int): nat {
    if rc < 0 && 0 < n <= |arrivals| && arrivals[n - 1].Refusal? then n - 1 else n
  }

  /**
    FCGX_Accept_r's loop: a connection still held is tried first and shut if it fails; then the
    next arrivals are opened and shut in turn, up to one that stays open or a refusal.
   */
  predicate AcceptStep(s: Snap, rc: int, s': Snap) {
    && |s'.arrivals| <= |s.arrivals|
    && var n := |s.arrivals| - |s'.arrivals|;
    var c := Connections(s.arrivals, n, rc);
    && s'.arrivals == s.arrivals[n..] && (forall j :: 0 <= j < c ==> s.arrivals[j].Peer?)
    && s'.open == (rc == 0) && s'.fd == s.fd + c
    && s'.log == s.log + (if s.open && !(rc == 0 && n == 0) then [Shut(s.fd)] else []) + Trail(s.fd, c, rc == 0)
    && (rc == 0 ==> n > 0 || s.open)
    && (rc != 0 ==> rc == RefusalCode(if c < n then s.arrivals[c].osErrno else 0) && (c < n || s'.arrivals == []))
  }

  /**
    The connection held is tried first, and taken exactly if its bytes say so; then so is every
    new one, the last only with return code 0.
   */
  predicate Attempts(s: Snap, rc: int, left: seq<Arrival>, first: Tried, tries: seq<Tried>) {
    && |left| <= |s.arrivals| && |tries| == Connections(s.arrivals, |s.arrivals| - |left|, rc) <= |s.arrivals|
    && (s.open ==>
          && first.id == s.id && (first.broken ==> !s.reliable)
          && (first.broken || s.held == Lost || (s.held.Accepted? <==> rc == 0 && left == s.arrivals)))
    && forall j :: 0 <= j < |tries| ==>
         && s.arrivals[j].Peer?
         && (tries[j].broken ==> !s.arrivals[j].reliable)
         && (tries[j].broken || ComesTo(s.arrivals[j], tries[j]) == Lost
             || (ComesTo(s.arrivals[j], tries[j]).Accepted? <==> rc == 0 && j == |tries| - 1))
  }

  /**
    The request id before attempt `j`: the one from before the call, or the one that the last
    attempt has left behind, with which it may have begun if a write failed on it.
   */
  predicate IdBefore(s: Snap, first: Tried, tries: seq<Tried>, j: nat, id: int)
    requires j <= |tries|
  {
    if j == 0 then if s.open then first.broken || id == s.heldId else id == s.id
    else
      && j <= |s.arrivals| && s.arrivals[j - 1].Peer?
      && var p, t := s.arrivals[j - 1], tries[j - 1];
         id == IdOf(t.id, EofCode(p.endErrno), p.inbound) || (t.broken && id == t.id)
  }

  /** The attempts hand on the request id, up to `id`. */
  predicate Chained(s: Snap, first: Tried, tries: seq<Tried>, id: int) {
    && (s.open ==> first.id == s.id)
    && (forall j :: 0 <= j < |tries| ==> IdBefore(s, first, tries, j, tries[j].id))
    && IdBefore(s, first, tries, |tries|, id)
  }

  lemma ChainOn(s: Snap, k: nat, first: Tried, tries: seq<Tried>, t: Tried, a: Attempt, heldId: int, id: int)
    requires k <= |s.arrivals| && |tries| == Max(k - 1, 0) && Tries(s, k, t, a)
    requires k > 0 ==> Chained(s, first, tries, t.id)
    requires heldId == if k == 0 then s.heldId else
                         var p := s.arrivals[k - 1]; IdOf(t.id, EofCode(p.endErrno), p.inbound)
    requires if k == 0 then t.broken || id == heldId else id == heldId || (t.broken && id == t.id)
    ensures Chained(s, if k > 0 then first else t, if k > 0 then tries + [t] else tries, id)
  {
    hide IdOf, ComesTo;
    if k > 0 {
      var more := tries + [t];
      assert forall j :: 0 <= j < |tries| ==> more[j] == tries[j];
      assert forall j, i :: 0 <= j <= |tries| ==> IdBefore(s, first, more, j, i) == IdBefore(s, first, tries, j, i);
    }
  }

  /** What a connection's bytes come to. */
  function ComesTo(p: Arrival, t: Tried): Attempt
    requires p.Peer?
  {
    AttemptOn(t.id, EofCode(p.endErrno), p.inbound)
  }

  lemma TriedNow(s: Snap, k: nat, t: Tried, a: Attempt, p: Arrival)
    requires k <= |s.arrivals| && (k > 0 ==> p == s.arrivals[k - 1] && p.Peer?)
    requires if k == 0 then s.open && a == s.held && t.id == s.id && (t.broken ==> !s.reliable)
             else
               && a == AttemptOn(t.id, EofCode(p.endErrno), p.inbound)
               && (t.broken ==> !p.reliable)
    ensures Tries(s, k, t, a)
  {
    hide AttemptOn;
  }

  /** The attempt that succeeded: on the connection held, or on the last one that arrived. */
  predicate Won(held: Attempt, arrivals: seq<Arrival>, left: seq<Arrival>, tries: seq<Tried>, a: Attempt,
                broken: bool, reliable: bool, endErrno: nat) {
    if left == arrivals then a == held
    else
      var n := |arrivals| - |left|;
      && 0 < n == |tries| && arrivals[n - 1].Peer?
      && a == ComesTo(arrivals[n - 1], tries[n - 1])
      && tries[n - 1].broken == broken && arrivals[n - 1].reliable == reliable && arrivals[n - 1].endErrno == endErrno
  }

  lemma SeekWins(s: Snap, k: nat, now: Snap, tries: seq<Tried>, t: Tried, a: Attempt, reliable: bool, endErrno: nat)
    requires Sought(s, k, now) && |tries| == Max(k - 1, 0) && Tries(s, k, t, a)
    requires k > 0 ==>
               s.arrivals[k - 1].Peer? && s.arrivals[k - 1].reliable == reliable
               && s.arrivals[k - 1].endErrno == endErrno
    ensures Won(s.held, s.arrivals, now.arrivals, if k > 0 then tries + [t] else tries, a, t.broken, reliable, endErrno)
  {
    hide ComesTo, Trail;
    if k > 0 {
      assert |now.arrivals| < |s.arrivals|;
    }
  }

  /** Some attempt, before or on one of these connections, made the library overrun an answer. */
  ghost predicate LosesOn(s: Snap, tries: seq<Tried>) {
    || s.lost || (s.open && s.held == Lost)
    || exists j ::
         0 <= j < |tries| && j < |s.arrivals| && s.arrivals[j].Peer? && ComesTo(s.arrivals[j], tries[j]) == Lost
  }

  lemma LostToo(s: Snap, tries: seq<Tried>, t: Tried, k: nat, a: Attempt)
    requires k <= |s.arrivals| && |tries| == Max(k - 1, 0) && Tries(s, k, t, a)
    ensures k == 0 ==> LosesOn(s, tries) == (s.lost || a == Lost)
    ensures k > 0 ==> LosesOn(s, tries + [t]) == (LosesOn(s, tries) || a == Lost)
  {
    hide ComesTo;
    if k > 0 {
      var more := tries + [t];
      assert forall j :: 0 <= j < |tries| ==> more[j] == tries[j];
      assert more[|tries|] == t;
    }
  }

  /** So far `k` connections have been opened and all tries have failed. */
  predicate Sought(s: Snap, k: nat, now: Snap) {
    && k <= |s.arrivals| && now.arrivals == s.arrivals[k..] && (forall j :: 0 <= j < k ==> s.arrivals[j].Peer?)
    && now.fd == s.fd + k
    && (now.open ==> k > 0 || s.open)
    && now.log == s.log + (if s.open && (k > 0 || !now.open) then [Shut(s.fd)] else []) + Trail(s.fd, k, now.open)
  }

  /** The tries so far, the first on the connection held, have come to nothing. */
  predicate NoneTaken(s: Snap, first: Tried, tries: seq<Tried>) {
    && |tries| <= |s.arrivals|
    && (s.open ==>
          first.id == s.id && (first.broken ==> !s.reliable) && (first.broken || s.held == Lost || !s.held.Accepted?))
    && forall j :: 0 <= j < |tries| ==>
         && s.arrivals[j].Peer?
         && (tries[j].broken ==> !s.arrivals[j].reliable)
         && (tries[j].broken || ComesTo(s.arrivals[j], tries[j]) == Lost || !ComesTo(s.arrivals[j], tries[j]).Accepted?)
  }

  /** A try, on the connection held or on the last one that arrived. */
  predicate Tries(s: Snap, k: nat, t: Tried, a: Attempt) {
    if k == 0 then s.open && a == s.held && t.id == s.id && (t.broken ==> !s.reliable)
    else
      && k <= |s.arrivals| && s.arrivals[k - 1].Peer? && a == ComesTo(s.arrivals[k - 1], t)
      && (t.broken ==> !s.arrivals[k - 1].reliable)
  }

  lemma SoughtAnyhow(s: Snap, k: nat, now: Snap, next: Snap)
    requires Sought(s, k, now)
    requires next.open == now.open && next.fd == now.fd && next.log == now.log && next.arrivals == now.arrivals
    ensures Sought(s, k, next)
  {
  }

  lemma SeekArrivals(s: Snap, k: nat, now: Snap)
    requires Sought(s, k, now)
    ensures k <= |s.arrivals| && now.arrivals == s.arrivals[k..]
  {
  }

  /** Accepting fails: the attempts are over. */
  lemma SeekRefused(s: Snap, k: nat, now: Snap, end: Snap, rc: int, first: Tried, tries: seq<Tried>)
    requires Sought(s, k, now) && !now.open && |tries| == k && NoneTaken(s, first, tries)
    requires if now.arrivals == [] then end == now && rc == RefusalCode(0)
             else now.arrivals[0].Refusal? && end == now.(arrivals := now.arrivals[1..])
                  && rc == RefusalCode(now.arrivals[0].osErrno)
    ensures AcceptStep(s, rc, end) && Attempts(s, rc, end.arrivals, first, tries)
  {
    hide Trail, AttemptOn, ComesTo;
  }

  /** The last try, on the held or on a new connection, has succeeded. */
  lemma SeekTakes(s: Snap, k: nat, now: Snap, first: Tried, tries: seq<Tried>, t: Tried, a: Attempt)
    requires Sought(s, k, now) && now.open && |tries| == Max(k - 1, 0) && (k > 0 ==> NoneTaken(s, first, tries))
    requires Tries(s, k, t, a) && (t.broken || a == Lost || a.Accepted?)
    ensures AcceptStep(s, 0, now)
    ensures Attempts(s, 0, now.arrivals, if k > 0 then first else t, if k > 0 then tries + [t] else tries)
  {
    hide Trail, AttemptOn, ComesTo;
    if k > 0 {
      assert |now.arrivals| < |s.arrivals|;
    }
  }

  lemma SeekStarts(s: Snap)
    ensures Sought(s, 0, s)
    ensures !s.open ==> forall first :: NoneTaken(s, first, [])
    ensures !s.open ==> s.lost == LosesOn(s, []) && forall first :: Chained(s, first, [], s.id)
  {
    Unit(s.log);
  }

  lemma SeekOpens(s: Snap, k: nat, now: Snap, next: Snap)
    requires Sought(s, k, now) && !now.open && now.arrivals != [] && now.arrivals[0].Peer?
    requires next.open && next.fd == now.fd + 1 && next.log == now.log + [Opened(now.fd + 1)]
    requires next.arrivals == now.arrivals[1..]
    ensures Sought(s, k + 1, next) && k < |s.arrivals| && s.arrivals[k] == now.arrivals[0]
  {
    DropNext(s.arrivals, k);
    var first := if s.open then [Shut(s.fd)] else [];
    assert Trail(s.fd, k + 1, true) == Trail(s.fd, k, false) + [Opened(s.fd + k + 1)];
    Assoc(s.log + first, Trail(s.fd, k, false), [Opened(s.fd + k + 1)]);
  }

  lemma SeekShuts(s: Snap, k: nat, now: Snap, next: Snap, first: Tried, tries: seq<Tried>, t: Tried, a: Attempt)
    requires Sought(s, k, now) && now.open && |tries| == Max(k - 1, 0) && (k > 0 ==> NoneTaken(s, first, tries))
    requires !next.open && next.fd == now.fd && next.log == now.log + [Shut(now.fd)] && next.arrivals == now.arrivals
    requires Tries(s, k, t, a) && (t.broken || a == Lost || !a.Accepted?)
    ensures Sought(s, k, next) && NoneTaken(s, if k > 0 then first else t, if k > 0 then tries + [t] else tries)
  {
    hide AttemptOn, ComesTo;
    if k > 0 {
      var first := if s.open then [Shut(s.fd)] else [];
      assert Trail(s.fd, k, false) == Trail(s.fd, k, true) + [Shut(s.fd + k)];
      Assoc(s.log + first, Trail(s.fd, k, true), [Shut(s.fd + k)]);
    } else {
      Unit(s.log);
    }
  }

  /** The calls a program makes on its request object. */
  datatype Call = AcceptNext | FinishRequest | FreeRequest(close: bool)

  /** What a call reports: whether a stream had failed, the return code, and the attempts made. */
  datatype Report = Freed | Finished(failed: bool) | Returned(failed: bool, rc: int, first: Tried, tries: seq<Tried>)

  /**
    FCGX_Accept_r fails with the negated error of the refusal it met, or with -9999 if that has
    none or nothing more is to come.
   */
  lemma RefusalInNumerals(s: Snap, rc: int, s': Snap)
    requires AcceptStep(s, rc, s') && rc != 0
    ensures var n := |s.arrivals| - |s'.arrivals|;
            if n > 0 && s.arrivals[n - 1].Refusal? && s.arrivals[n - 1].osErrno > 0
            then rc == 0 - s.arrivals[n - 1].osErrno
            else rc == -9999
  {
    hide Trail;
  }

  /** What one call does to the connection held. */
  predicate Step(call: Call, r: Report, s: Snap, s': Snap) {
    match call
    case FreeRequest(close) => r == Freed && s' == Given(s, close)
    case FinishRequest => r.Finished? && Reported(s, r.failed) && s' == Given(s, !s.keep || r.failed)
    case AcceptNext =>
      && r.Returned? && Reported(s, r.failed)
      && var g := Given(s, !s.keep || r.failed);
      && AcceptStep(g, r.rc, s') && Attempts(g, r.rc, s'.arrivals, r.first, r.tries)
      && Chained(g, r.first, r.tries, s'.id)
  }

  /** With this call the library has overrun an answer, if it had not before. */
  ghost predicate LosesIn(call: Call, r: Report, s: Snap) {
    if call.AcceptNext? && r.Returned? then LosesOn(Given(s, !s.keep || r.failed), r.tries) else s.lost
  }

  /** Finishing fails if the input has failed, and otherwise only if a write may fail. */
  predicate Reported(s: Snap, failed: bool) {
    (s.inputFailed ==> failed) && (failed ==> s.inputFailed || !s.reliable)
  }

  /** At most one connection is open, the one held, and none has been shut twice. */
  predicate Owned(s: Snap) {
    Replay(s.log) == if s.open then Holding(s.fd) else Nobody
  }

  /**
    Any program of such calls, against any arrivals, up to an attempt that is lost: each call
    does to the connection held what its step says, and connections are opened one at a time and
    never shut twice.
   */
  method Serve(arrivals: seq<Arrival>, calls: seq<Call>)
    returns (ghost trace: seq<Snap>, ghost reports: seq<Report>, log: seq<Event>)
    ensures |trace| == |calls| + 1 && |reports| == |calls| && log == trace[|calls|].log
    ensures trace[0] == Snap(false, 0, false, true, false, 0, AttemptOn(0, EofCode(0), []), 0, false, [], arrivals)
    ensures forall i :: 0 <= i < |calls| ==> trace[i + 1].lost == LosesIn(calls[i], reports[i], trace[i])
    ensures forall i :: 0 <= i < |calls| ==> (trace[i].lost ==> trace[i + 1].lost)
    ensures forall i :: 0 <= i < |calls| && !trace[i + 1].lost ==> Step(calls[i], reports[i], trace[i], trace[i + 1])
    ensures forall i :: 0 <= i <= |calls| && !trace[i].lost ==> Owned(trace[i])
    ensures !trace[|calls|].lost ==> forall i :: 0 <= i < |log| && log[i].Opened? ==> Replay(log[..i]) == Nobody
  {
    hide Replay, Step, AttemptOn, LosesOn, IdOf;
    NothingHeld();
    var slot := new Acceptor(arrivals);
    trace, reports := [slot.Now()], [];
    for i := 0 to |calls|
      invariant slot.Valid() && fresh(slot) && fresh(slot.link)
      invariant slot.out != null ==> fresh(slot.out) && fresh(slot.out.buff)
      invariant slot.err != null ==> fresh(slot.err) && fresh(slot.err.buff)
      invariant |trace| == i + 1 && |reports| == i && trace[i] == slot.Now()
      invariant trace[0] == Snap(false, 0, false, true, false, 0, AttemptOn(0, EofCode(0), []), 0, false, [], arrivals)
      invariant forall j :: 0 <= j < i ==> trace[j + 1].lost == LosesIn(calls[j], reports[j], trace[j])
      invariant forall j :: 0 <= j < i ==> (trace[j].lost ==> trace[j + 1].lost)
      invariant forall j :: 0 <= j < i && !trace[j + 1].lost ==> Step(calls[j], reports[j], trace[j], trace[j + 1])
      invariant forall j :: 0 <= j <= i ==> Owned(trace[j])
    {
      ghost var s := slot.Now();
      ghost var r := slot.Perform(calls[i]);
      OnceLost(calls[i], r, s);
      trace, reports := trace + [slot.Now()], reports + [r];
    }
    log := slot.log;
    forall i | 0 <= i < |log| && log[i].Opened?
      ensures Replay(log[..i]) == Nobody
    {
      OneAtATime(log, i);
    }
  }

  lemma NothingHeld()
    ensures IdOf(0, EofCode(0), []) == 0
  {
  }

  lemma OnceLost(call: Call, r: Report, s: Snap)
    ensures s.lost ==> LosesIn(call, r, s)
  {
  }
}
