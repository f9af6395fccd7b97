/**
  The bridge's event loop: the dispatch table of the os layer calls the bridge's three handlers,
  and their ScheduleIo arms it again.
 */
module EventLoop {
  import opened Seqs
  import opened Protocol
  import opened DispatchSpec
  import opened DispatchRuns
  import opened AsyncIo
  import BridgeRequest
  import BridgeResponse
  import Response

  // ---------------------------------------------------------------- what a run of the loop means

  /** What a read brings: bytes, none of them at the end, or an error. */
  datatype Reading = Data(bytes: seq<byte>) | ReadError(osErrno: nat)

  datatype Writing = Wrote(count: nat) | WriteError(osErrno: nat)

  /** What one call of OS_DoIo meets: the descriptors that are ready, and what reading and writing them would do. */
  datatype Turn = Turn(readable: set<nat>, writable: set<nat>, stdin: Reading, fromServer: Reading, toServer: Writing)

  /** Where both sides of the bridge have come to. */
  datatype Point = Point(course: BridgeRequest.Course, result: BridgeResponse.Result)

  function StartPoint(contentLength: int): Point {
    Point(BridgeRequest.Going(BridgeRequest.Start(contentLength)), BridgeResponse.Going(BridgeResponse.INITIAL))
  }

  predicate Alive(p: Point) {
    p.course.Going? && p.result.Going?
  }

  /** main goes on calling OS_DoIo. */
  predicate Looping(p: Point) {
    Alive(p) && p.result.state.status == BridgeResponse.Unset
  }

  /** A read yields no more than was asked for. */
  function Cut(bytes: seq<byte>, n: nat): (r: seq<byte>)
    ensures |r| <= n && (|bytes| <= n ==> r == bytes) && (n > 0 ==> (r == [] <==> bytes == []))
  {
    bytes[..Min(|bytes|, n)]
  }

  /** The read asks for 8184 bytes. */
  function StdinEvent(r: Reading): (e: BridgeRequest.Event)
    ensures r.Data? && |r.bytes| <= 8184 ==> e == BridgeRequest.Stdin(r.bytes)
    ensures r.Data? && |r.bytes| > 8184 ==> e == BridgeRequest.Stdin(r.bytes[..8184])
    ensures r.ReadError? ==> e == BridgeRequest.StdinFailed(r.osErrno)
  {
    match r
    case Data(bytes) => BridgeRequest.Stdin(Cut(bytes, BridgeRequest.BUFFLEN - HEADER_LEN))
    case ReadError(osErrno) => BridgeRequest.StdinFailed(osErrno)
  }

  /** The write offers all that is unsent. */
  function WriteEvent(w: Writing, unsent: nat): (e: BridgeRequest.Event)
    ensures w.Wrote? && w.count <= unsent ==> e == BridgeRequest.Writable(w.count)
    ensures w.Wrote? && w.count > unsent ==> e == BridgeRequest.Writable(unsent)
    ensures w.WriteError? ==> e == BridgeRequest.WriteFailed(w.osErrno)
  {
    match w
    case Wrote(count) => BridgeRequest.Writable(Min(count, unsent))
    case WriteError(osErrno) => BridgeRequest.WriteFailed(osErrno)
  }

  /** A read of standard input is pending exactly when nothing is left to be written and there is more to come. */
  predicate ReadsStdin(f: BridgeRequest.Flow) {
    f.unsent == 0 && !f.done
  }

  /** AppServerReadHandler, on anything. */
  function Served(st: BridgeResponse.State, r: Reading): BridgeResponse.Result {
    match r
    case ReadError(osErrno) => BridgeResponse.Exited(osErrno)
    case Data(bytes) =>
      if bytes == [] then
        var complete := st.phase == BridgeResponse.AtHeader(0) && st.status.Set?;
        BridgeResponse.Exited(if complete then st.status.value else PROTOCOL_ERROR)
      else BridgeResponse.Demux(BridgeRequest.REQUEST_ID, st, Cut(bytes, BridgeRequest.BUFFLEN))
  }

  function StdinStep(p: Point, r: Reading): Point
    requires Alive(p)
  {
    p.(course := BridgeRequest.Happens(p.course.flow, StdinEvent(r)))
  }

  function ServerStep(p: Point, r: Reading): Point {
    if !Alive(p) then p else p.(result := Served(p.result.state, r))
  }

  function WriteStep(p: Point, w: Writing): Point {
    if !Alive(p) then p else p.(course := BridgeRequest.Happens(p.course.flow, WriteEvent(w, p.course.flow.unsent)))
  }

  /** Standard input first; then the socket, its read before its write; but only what was armed when the turn began. */
  function AfterStdin(p: Point, t: Turn): Point
    requires Alive(p)
  {
    if 0 in t.readable && ReadsStdin(p.course.flow) then StdinStep(p, t.stdin) else p
  }

  function AfterServer(p: Point, sock: nat, t: Turn): Point
    requires Alive(p)
  {
    if sock in t.readable then ServerStep(AfterStdin(p, t), t.fromServer) else AfterStdin(p, t)
  }

  function AfterWrite(p: Point, sock: nat, t: Turn): Point
    requires Alive(p)
  {
    if sock in t.writable && p.course.flow.unsent > 0 then WriteStep(AfterServer(p, sock, t), t.toServer)
    else AfterServer(p, sock, t)
  }

  function RunOf(contentLength: int, sock: nat, turns: seq<Turn>): Point {
    if turns == [] then StartPoint(contentLength)
    else
      var p := RunOf(contentLength, sock, turns[..|turns| - 1]);
      if Looping(p) then AfterWrite(p, sock, turns[|turns| - 1]) else p
  }

  // ---------------------------------------------------------------- the events are possible ones

  function StdinEvents(p: Point, t: Turn): seq<BridgeRequest.Event>
    requires Alive(p)
  {
    if 0 in t.readable && ReadsStdin(p.course.flow) then [StdinEvent(t.stdin)] else []
  }

  function ServerEvents(p: Point, sock: nat, t: Turn): seq<BridgeRequest.Event>
    requires Alive(p)
  {
    if sock in t.readable && Alive(AfterServer(p, sock, t)) then [BridgeRequest.Readable] else []
  }

  function WriteEvents(p: Point, sock: nat, t: Turn): seq<BridgeRequest.Event>
    requires Alive(p)
  {
    if sock in t.writable && p.course.flow.unsent > 0 && Alive(AfterServer(p, sock, t))
    then [WriteEvent(t.toServer, p.course.flow.unsent)] else []
  }

  /** The events of one turn. */
  function Events(p: Point, sock: nat, t: Turn): seq<BridgeRequest.Event>
    requires Alive(p)
  {
    StdinEvents(p, t) + ServerEvents(p, sock, t) + WriteEvents(p, sock, t)
  }

  function Log(contentLength: int, sock: nat, turns: seq<Turn>): seq<BridgeRequest.Event> {
    if turns == [] then []
    else
      var before := turns[..|turns| - 1];
      var p := RunOf(contentLength, sock, before);
      Log(contentLength, sock, before) + if Looping(p) then Events(p, sock, turns[|turns| - 1]) else []
  }

  lemma PlaySome(contentLength: int, events: seq<BridgeRequest.Event>, es: seq<BridgeRequest.Event>)
    requires |es| <= 1
    ensures var c, d := BridgeRequest.Play(contentLength, events), BridgeRequest.Play(contentLength, events + es);
            d == if es == [] || !c.Going? then c else BridgeRequest.Happens(c.flow, es[0])
  {
    hide BridgeRequest.Happens;
    if es == [] {
      Unit(events);
    } else {
      assert es == [es[0]] && (events + [es[0]])[..|events|] == events;
    }
  }

  lemma TurnPlays(contentLength: int, log: seq<BridgeRequest.Event>, p: Point, sock: nat, t: Turn)
    requires Alive(p) && BridgeRequest.Play(contentLength, log) == p.course
    ensures BridgeRequest.Play(contentLength, log + Events(p, sock, t)) == AfterWrite(p, sock, t).course
    ensures AfterWrite(p, sock, t).course != BridgeRequest.Impossible
  {
    hide BridgeRequest.Play, Served;
    var a, b, c := StdinEvents(p, t), ServerEvents(p, sock, t), WriteEvents(p, sock, t);
    PlaySome(contentLength, log, a);
    PlaySome(contentLength, log + a, b);
    PlaySome(contentLength, log + a + b, c);
    assert log + Events(p, sock, t) == log + a + b + c;
  }

  /** Whatever is ready in whatever turns, the handlers get only events that they expect. */
  lemma {:induction false} OnlyPossible(contentLength: int, sock: nat, turns: seq<Turn>)
    ensures BridgeRequest.Play(contentLength, Log(contentLength, sock, turns))
            == RunOf(contentLength, sock, turns).course
    ensures RunOf(contentLength, sock, turns).course != BridgeRequest.Impossible
  {
    if turns != [] {
      var before, t := turns[..|turns| - 1], turns[|turns| - 1];
      OnlyPossible(contentLength, sock, before);
      var p, log := RunOf(contentLength, sock, before), Log(contentLength, sock, before);
      Unit(log);
      if Looping(p) {
        TurnPlays(contentLength, log, p, sock, t);
      }
    }
  }

  // ---------------------------------------------------------------- the answer is taken in as it comes

  /** What has been read from the application server in a turn. */
  function Reply(p: Point, sock: nat, t: Turn): seq<seq<byte>>
    requires Alive(p)
  {
    if sock in t.readable && Alive(AfterStdin(p, t)) && t.fromServer.Data? && t.fromServer.bytes != []
    then [Cut(t.fromServer.bytes, BridgeRequest.BUFFLEN)] else []
  }

  function Replies(contentLength: int, sock: nat, turns: seq<Turn>): seq<seq<byte>> {
    if turns == [] then []
    else
      var before := turns[..|turns| - 1];
      var p := RunOf(contentLength, sock, before);
      Replies(contentLength, sock, before) + if Looping(p) then Reply(p, sock, turns[|turns| - 1]) else []
  }

  /** The answer so far, as successive reads take it in; the loop may also have ended before it was complete. */
  predicate TookIn(p: Point, chunks: seq<seq<byte>>) {
    var r := BridgeResponse.Feed(BridgeRequest.REQUEST_ID, BridgeResponse.INITIAL, chunks);
    p.result == r || (p.result.Exited? && r.Going? && r.state.status == BridgeResponse.Unset)
  }

  lemma ReplyTaken(st: BridgeResponse.State, chunks: seq<seq<byte>>, c: seq<byte>)
    requires BridgeResponse.Feed(BridgeRequest.REQUEST_ID, BridgeResponse.INITIAL, chunks) == BridgeResponse.Going(st)
    ensures BridgeResponse.Feed(BridgeRequest.REQUEST_ID, BridgeResponse.INITIAL, chunks + [c])
            == BridgeResponse.Demux(BridgeRequest.REQUEST_ID, st, c)
  {
    hide BridgeResponse.Demux;
    assert (chunks + [c])[..|chunks|] == chunks;
  }

  /** Only the server's bytes matter to the answer. */
  lemma ResultAfter(p: Point, sock: nat, t: Turn)
    requires Looping(p)
    ensures AfterWrite(p, sock, t).result
            == if sock in t.readable && Alive(AfterStdin(p, t)) then Served(p.result.state, t.fromServer) else p.result
  {
    hide BridgeRequest.Happens, Served;
  }

  lemma TurnTakesIn(p: Point, sock: nat, t: Turn, chunks: seq<seq<byte>>)
    requires Looping(p) && TookIn(p, chunks)
    ensures TookIn(AfterWrite(p, sock, t), chunks + Reply(p, sock, t))
  {
    hide BridgeResponse.Demux, BridgeResponse.Feed, AfterWrite, AfterStdin;
    ResultAfter(p, sock, t);
    Unit(chunks);
    if Reply(p, sock, t) != [] {
      ReplyTaken(p.result.state, chunks, Reply(p, sock, t)[0]);
    }
  }

  lemma {:induction false} LoopTakesIn(contentLength: int, sock: nat, turns: seq<Turn>)
    ensures TookIn(RunOf(contentLength, sock, turns), Replies(contentLength, sock, turns))
    ensures forall i :: 0 <= i < |Replies(contentLength, sock, turns)| ==> Replies(contentLength, sock, turns)[i] != []
  {
    hide TookIn, AfterWrite, AfterStdin;
    if turns == [] {
      FirstPoint(contentLength);
    } else {
      var before, t := turns[..|turns| - 1], turns[|turns| - 1];
      LoopTakesIn(contentLength, sock, before);
      var p, chunks := RunOf(contentLength, sock, before), Replies(contentLength, sock, before);
      Unit(chunks);
      if Looping(p) {
        TurnTakesIn(p, sock, t, chunks);
      }
    }
  }

  lemma FirstPoint(contentLength: int)
    ensures TookIn(StartPoint(contentLength), [])
  {
  }

  /**
    If what has been read is a complete response, the loop has ended with the application's
    output and exit status, or astray, as its reads were cut; its other side, and when things
    were ready, make no difference.
   */
  lemma LoopRelays(contentLength: int, sock: nat, turns: seq<Turn>, rs: seq<Record>, out: seq<byte>, err: seq<byte>,
                   status: int)
    requires Response.CompleteResponse(rs, BridgeRequest.REQUEST_ID, out, err, status) && IsInt32(status)
    requires Flatten(Replies(contentLength, sock, turns)) == EncodeAll(rs)
    ensures RunOf(contentLength, sock, turns).result
            == if BridgeResponse.SafeSplit(rs, Replies(contentLength, sock, turns))
               then BridgeResponse.Going(BridgeResponse.State(BridgeResponse.AtHeader(0), out, err,
                                                              BridgeResponse.Set(status)))
               else BridgeResponse.Stray
  {
    hide BridgeResponse.Feed, BridgeResponse.SafeSplit, Response.CompleteResponse, RunOf, Replies, Flatten, EncodeAll;
    var chunks := Replies(contentLength, sock, turns);
    LoopTakesIn(contentLength, sock, turns);
    BridgeResponse.ResponseInAnyChunks(BridgeRequest.REQUEST_ID, rs, out, err, status, chunks);
  }

  // ---------------------------------------------------------------- the table while the bridge runs

  predicate Pends(sock: nat, stdin: bool, read: bool, write: bool, fd: nat, w: bool) {
    (fd == 0 && !w && stdin) || (fd == sock && !w && read) || (fd == sock && w && write)
  }

  /** Exactly the slots of the pending operations are in use, and nothing has been closed. */
  ghost predicate Slots(b: Board, sock: nat, stdin: bool, read: bool, write: bool) {
    && Good(b) && b.lostRd == 0 && b.lostWr == 0
    && forall fd: nat, w: bool :: InUse(b.table, fd, w) <==> Pends(sock, stdin, read, write, fd, w)
  }

  lemma SlotsTake(b: Board, sock: nat, stdin: bool, read: bool, write: bool, fd: nat, w: bool)
    requires sock > 0 && Slots(b, sock, stdin, read, write) && fd in Posted(b.s, w)
    ensures Good(b) && InUse(b.table, fd, w) && Pends(sock, stdin, read, write, fd, w)
    ensures Slots(FireBoard(b, fd, w), sock, stdin && !(fd == 0 && !w), read && !(fd == sock && !w),
                  write && !(fd == sock && w))
    ensures SamePosts(Unpost(b.s, fd, w), FireBoard(b, fd, w).s)
  {
    hide Good, InUse;
    FireKeeps(b, fd, w);
    FireUses(b, fd, w);
  }

  lemma SlotsArm(b: Board, sock: nat, stdin: bool, read: bool, write: bool, fd: nat, w: bool, proc: Proc)
    requires sock > 0 && Slots(b, sock, stdin, read, write) && !InUse(b.table, fd, w)
    requires (fd == 0 && !w) || fd == sock
    ensures b.table != []
    ensures Slots(ArmBoard(b, fd, w, proc), sock,
                  stdin || (fd == 0 && !w), read || (fd == sock && !w), write || (fd == sock && w))
    ensures SamePosts(b.s, ArmBoard(b, fd, w, proc).s)
  {
    hide Good, InUse, GrownTo, GrowsTo;
    GoodTable(b);
    ArmKeeps(b, fd, w, proc);
    ArmUses(b.table, GrownTo(b.table, Index(fd, w)), fd, w, AioInfo(true, fd, b.next, proc));
  }

  /** The same operations are posted. */
  predicate SamePosts(s: Sets, t: Sets) {
    t.readPosted == s.readPosted && t.writePosted == s.writePosted
  }

  /** What select posts, of the pending operations. */
  lemma SelectSlots(b: Board, sock: nat, stdin: bool, read: bool, write: bool, readable: set<nat>, writable: set<nat>)
    requires Slots(b, sock, stdin, read, write) && b.s.readPosted == {} && b.s.writePosted == {}
    ensures var c := SelectBoard(b, readable, writable);
            && Slots(c, sock, stdin, read, write)
            && c.s.readPosted == (if 0 in readable && stdin then {0} else {})
                                 + (if sock in readable && read then {sock} else {})
            && c.s.writePosted == if sock in writable && write then {sock} else {}
  {
    hide InUse, Good, Size;
    var c := SelectBoard(b, readable, writable);
    NoneLost(b);
    ReadyKeeps(b, readable, writable);
    forall fd: nat, w: bool
      ensures fd in Waiting(b.s, w) <==> Pends(sock, stdin, read, write, fd, w)
    {
      UsedMeans(b, fd, w);
    }
    assert forall fd: nat :: fd in b.s.readWaiting <==> fd in Waiting(b.s, false);
    assert forall fd: nat :: fd in b.s.writeWaiting <==> fd in Waiting(b.s, true);
  }

  lemma SocketInside(b: Board, sock: nat, stdin: bool, write: bool)
    requires Slots(b, sock, stdin, true, write)
    ensures sock <= b.maxFd
  {
    hide Ticketed, Counted;
    assert InUse(b.table, sock, false);
  }

  // ---------------------------------------------------------------- the loop

  class Loop {
    const sock: nat
    const d: Dispatcher
    const f: BridgeRequest.Forwarder
    const g: BridgeResponse.Bridge

    ghost predicate Apart()
      reads this
    {
      && sock > 0 && g.requestId == BridgeRequest.REQUEST_ID
      && f.fromWS != g.fromAS && f.fromWS != g.header && f.fromWS != g.erBody
    }

    /** Both sides are where `p` has them. */
    ghost predicate At(p: Point)
      reads this, f, f.fromWS, g, g.header
    {
      f.Follows(p.course) && g.Valid() && g.Reached(p.result)
    }

    /** The pending flags say what is armed. */
    ghost predicate Armed()
      reads this, d, f
    {
      d.halt == Running && Slots(d.Now(), sock, f.wsReadPending, f.fcgiReadPending, f.fcgiWritePending)
    }

    /** Between two calls of OS_DoIo. */
    ghost predicate Valid(p: Point)
      reads this, d, f, f.fromWS, g, g.header
    {
      && Apart() && At(p)
      && (Alive(p) ==> Armed() && d.readFdSetPost == {} && d.writeFdSetPost == {})
    }

    /** main, when the environment is sent. */
    constructor (contentLength: int, sock: nat)
      requires sock > 0
      ensures Valid(StartPoint(contentLength)) && this.sock == sock
      ensures fresh(d) && fresh(f) && fresh(f.fromWS) && fresh(g) && fresh({g.fromAS, g.header, g.erBody})
    {
      hide Good, Linked, Ticketed, InUse, BridgeRequest.StdinWire;
      this.sock := sock;
      d := new Dispatcher();
      f := new BridgeRequest.Forwarder(contentLength);
      g := new BridgeResponse.Bridge(BridgeRequest.REQUEST_ID);
      new;
      NotInUse(d.Now());
      ArmNew(false, false, false);
    }

    /** ScheduleIo's calls of the os layer, for the flags it has just set; none finds its slot in use. */
    method ArmNew(stdin: bool, read: bool, write: bool)
      requires Apart() && d.halt == Running && Slots(d.Now(), sock, stdin, read, write)
      requires (stdin ==> f.wsReadPending) && (read ==> f.fcgiReadPending) && (write ==> f.fcgiWritePending)
      modifies d
      ensures Armed() && SamePosts(old(d.View()), d.View())
    {
      hide Good, Follows, ArmBoard, Holds, InUse;
      if f.fcgiWritePending && !write {
        SlotsArm(d.Now(), sock, stdin, read, false, sock, true, Proc([]));
        d.Arm(sock, true, Proc([]));
      }
      if f.fcgiReadPending && !read {
        SlotsArm(d.Now(), sock, stdin, false, f.fcgiWritePending, sock, false, Proc([]));
        d.Arm(sock, false, Proc([]));
      }
      if f.wsReadPending && !stdin {
        SlotsArm(d.Now(), sock, false, f.fcgiReadPending, f.fcgiWritePending, 0, false, Proc([]));
        d.Arm(0, false, Proc([]));
      }
    }

    /** A flag is set exactly when its operation has something to do. */
    lemma Flags()
      requires f.Valid()
      ensures f.fcgiReadPending && (f.fcgiWritePending <==> f.View().unsent > 0)
      ensures f.wsReadPending <==> ReadsStdin(f.View())
    {
      hide BridgeRequest.StdinWire, BridgeRequest.Sized;
    }

    /** Standard input has been found ready. */
    method DispatchStdin(ghost p: Point, r: Reading)
      requires Apart() && At(p) && Alive(p) && Armed() && 0 in d.readFdSetPost
      modifies d, f, f.fromWS
      ensures At(StdinStep(p, r))
      ensures Alive(StdinStep(p, r)) ==> Armed() && SamePosts(Unpost(old(d.View()), 0, false), d.View())
    {
      hide Good, Follows, FireBoard, InUse, Slots, BridgeRequest.StdinWire, BridgeRequest.Happens;
      Flags();
      SlotsTake(d.Now(), sock, f.wsReadPending, f.fcgiReadPending, f.fcgiWritePending, 0, false);
      d.Take(0, false);
      PossibleStdin(f.View(), r);
      var read, write := f.fcgiReadPending, f.fcgiWritePending;
      var ok := f.Handle(StdinEvent(r));
      if f.outcome == BridgeRequest.Proceed && !f.overrun {
        Flags();
        ArmNew(false, read, write);
      }
    }

    /** The application server has been found readable; if the bridge goes on, its handler ends with ScheduleIo. */
    method DispatchServer(ghost p: Point, r: Reading)
      requires Apart() && At(p) && Alive(p) && Armed() && sock in d.readFdSetPost
      modifies d, f, g, g.fromAS, g.header, g.erBody
      ensures At(ServerStep(p, r))
      ensures Alive(ServerStep(p, r)) ==> Armed() && SamePosts(Unpost(old(d.View()), sock, false), d.View())
    {
      hide Good, Follows, FireBoard, InUse, Slots, BridgeRequest.StdinWire, BridgeResponse.Demux, BridgeRequest.Sized;
      Flags();
      SlotsTake(d.Now(), sock, f.wsReadPending, f.fcgiReadPending, f.fcgiWritePending, sock, false);
      d.Take(sock, false);
      var stdin, write := f.wsReadPending, f.fcgiWritePending;
      Serve(p.result.state, r);
      if g.exited == BridgeResponse.Unset && !g.strayed {
        f.AppServerReadable();
        Flags();
        ArmNew(stdin, false, write);
      }
    }

    method Serve(ghost st: BridgeResponse.State, r: Reading)
      requires Apart() && g.Valid() && g.Reached(BridgeResponse.Going(st))
      modifies g, g.fromAS, g.header, g.erBody
      ensures g.Valid() && g.Reached(Served(st, r))
    {
      hide BridgeResponse.Demux;
      match r {
        case ReadError(osErrno) =>
          g.next := 0;
          g.AppServerReadHandler(-1, osErrno);
        case Data(bytes) =>
          if bytes == [] {
            g.next := 0;
            g.AppServerReadHandler(0, 0);
          } else {
            g.Read(Cut(bytes, BridgeRequest.BUFFLEN));
          }
      }
    }

    /** The application server has been found writable. */
    method DispatchWrite(ghost p: Point, w: Writing)
      requires Apart() && At(p) && Alive(p) && Armed() && sock in d.writeFdSetPost
      modifies d, f, f.fromWS
      ensures At(WriteStep(p, w))
      ensures Alive(WriteStep(p, w)) ==> Armed() && SamePosts(Unpost(old(d.View()), sock, true), d.View())
    {
      hide Good, Follows, FireBoard, InUse, Slots, BridgeRequest.StdinWire, BridgeRequest.Happens;
      Flags();
      SlotsTake(d.Now(), sock, f.wsReadPending, f.fcgiReadPending, f.fcgiWritePending, sock, true);
      d.Take(sock, true);
      PossibleWrite(f.View(), w);
      var stdin, read := f.wsReadPending, f.fcgiReadPending;
      var ok := f.Handle(WriteEvent(w, f.stop - f.next));
      if f.outcome == BridgeRequest.Proceed && !f.overrun {
        Flags();
        ArmNew(stdin, read, false);
      }
    }

    /**
      OS_DoIo, with the bridge's handlers as callbacks: what was armed when the call began and is
      ready has its handler called, once; what handlers arm waits for the next call.
     */
    method DoIo(ghost p: Point, t: Turn)
      requires Valid(p) && Alive(p)
      modifies d, f, f.fromWS, g, g.fromAS, g.header, g.erBody
      ensures Valid(AfterWrite(p, sock, t))
    {
      hide Good, Follows, InUse, Size, At, AfterWrite, AfterStdin;
      ghost var b := d.Now();
      AliveFlags(p);
      NoneLost(b);
      SelectSlots(b, sock, f.wsReadPending, f.fcgiReadPending, f.fcgiWritePending, t.readable, t.writable);
      d.asyncIoInUse := true;
      if d.numRdPosted == 0 && d.numWrPosted == 0 {
        d.Select(t.readable, t.writable);
      }
      NoneLost(d.Now());
      if d.numRdPosted == 0 && d.numWrPosted == 0 {
        NothingReady(p, t, d.View());
        return;
      }
      DispatchAll(p, t);
    }

    /** Where the loop has come to when it gets to `fd`, and what is still posted then. */
    ghost function Stage(p: Point, t: Turn, fd: nat): Point
      requires Alive(p)
    {
      if fd == 0 then p else if fd <= sock then AfterStdin(p, t) else AfterWrite(p, sock, t)
    }

    ghost predicate Posts(p: Point, t: Turn, fd: nat, s: Sets)
      requires Alive(p)
    {
      && s.readPosted == (if fd == 0 && 0 in t.readable && ReadsStdin(p.course.flow) then {0} else {})
                         + (if fd <= sock && sock in t.readable then {sock} else {})
      && s.writePosted == if fd <= sock && sock in t.writable && p.course.flow.unsent > 0 then {sock} else {}
    }

    /** The dispatch loop. */
    method DispatchAll(ghost p: Point, t: Turn)
      requires Apart() && At(p) && Alive(p) && Armed() && Posts(p, t, 0, d.View())
      modifies d, f, f.fromWS, g, g.fromAS, g.header, g.erBody
      ensures Valid(AfterWrite(p, sock, t))
    {
      hide Good, Follows, InUse, Slots, At, AfterWrite, AfterStdin;
      var fd := 0;
      while fd <= d.maxFd
        invariant 0 <= fd && Alive(Stage(p, t, fd)) && At(Stage(p, t, fd)) && Armed() && Posts(p, t, fd, d.View())
        decreases d.readFdSetPost, d.writeFdSetPost, d.maxFd - fd
      {
        Visit(p, t, fd);
        AliveIs(Stage(p, t, fd + 1));
        if f.outcome != BridgeRequest.Proceed || f.overrun || g.exited != BridgeResponse.Unset || g.strayed {
          return;
        }
        fd := fd + 1;
      }
      AliveFlags(Stage(p, t, fd));
      SocketInside(d.Now(), sock, f.wsReadPending, f.fcgiWritePending);
    }

    /** One turn of the loop. */
    method Visit(ghost p: Point, t: Turn, fd: nat)
      requires Apart() && Alive(p) && Alive(Stage(p, t, fd)) && At(Stage(p, t, fd)) && Armed()
      requires Posts(p, t, fd, d.View())
      modifies d, f, f.fromWS, g, g.fromAS, g.header, g.erBody
      ensures At(Stage(p, t, fd + 1))
      ensures Alive(Stage(p, t, fd + 1)) ==> Armed() && Posts(p, t, fd + 1, d.View())
      ensures !Alive(Stage(p, t, fd + 1)) ==> Stage(p, t, fd + 1) == AfterWrite(p, sock, t)
      ensures d.readFdSetPost == old(d.readFdSetPost) && d.writeFdSetPost == old(d.writeFdSetPost) ==>
                d.maxFd == old(d.maxFd) || !Alive(Stage(p, t, fd + 1))
    {
      hide Good, Follows, InUse, Slots, At, StdinStep, WriteStep;
      if fd in d.readFdSetPost && fd == 0 {
        DispatchStdin(p, t.stdin);
      } else if fd == sock {
        VisitSocket(p, t);
      }
    }

    method VisitSocket(ghost p: Point, t: Turn)
      requires Apart() && Alive(p) && Alive(AfterStdin(p, t)) && At(AfterStdin(p, t)) && Armed()
      requires Posts(p, t, sock, d.View())
      modifies d, f, f.fromWS, g, g.fromAS, g.header, g.erBody
      ensures At(AfterWrite(p, sock, t))
      ensures Alive(AfterWrite(p, sock, t)) ==> Armed() && Posts(p, t, sock + 1, d.View())
      ensures d.readFdSetPost == old(d.readFdSetPost) && d.writeFdSetPost == old(d.writeFdSetPost) ==>
                d.maxFd == old(d.maxFd) || !Alive(AfterWrite(p, sock, t))
    {
      hide Good, Follows, InUse, Slots, At, Served;
      if sock in d.readFdSetPost {
        DispatchServer(AfterStdin(p, t), t.fromServer);
        AliveIs(AfterServer(p, sock, t));
        if g.exited != BridgeResponse.Unset || g.strayed {
          return;
        }
      }
      if sock in d.writeFdSetPost {
        DispatchWrite(AfterServer(p, sock, t), t.toServer);
      }
    }

    /** main's loop, for as long as it calls OS_DoIo. */
    method Run(contentLength: int, turns: seq<Turn>)
      requires Valid(StartPoint(contentLength))
      modifies d, f, f.fromWS, g, g.fromAS, g.header, g.erBody
      ensures Valid(RunOf(contentLength, sock, turns))
      ensures f.Follows(BridgeRequest.Play(contentLength, Log(contentLength, sock, turns)))
    {
      hide RunOf, AfterWrite, BridgeRequest.Play, Good, Slots, BridgeRequest.StdinWire;
      FirstTurn(contentLength, sock);
      for i := 0 to |turns|
        invariant Valid(RunOf(contentLength, sock, turns[..i]))
      {
        NextTurn(contentLength, sock, turns, i);
        ghost var p := RunOf(contentLength, sock, turns[..i]);
        AliveIs(p);
        if && f.outcome == BridgeRequest.Proceed && !f.overrun
           && g.exited == BridgeResponse.Unset && !g.strayed && !g.exitStatusSet {
          DoIo(p, turns[i]);
        }
      }
      assert turns[..|turns|] == turns;
      OnlyPossible(contentLength, sock, turns);
    }

    lemma PossibleStdin(v: BridgeRequest.Flow, r: Reading)
      requires ReadsStdin(v)
      ensures BridgeRequest.Happens(v, StdinEvent(r)) != BridgeRequest.Impossible
    {
    }

    lemma AliveFlags(p: Point)
      requires At(p) && Alive(p)
      ensures f.fcgiReadPending && (f.fcgiWritePending <==> p.course.flow.unsent > 0)
      ensures f.wsReadPending <==> ReadsStdin(p.course.flow)
    {
      hide BridgeRequest.StdinWire, BridgeRequest.Sized;
      Flags();
    }

    /** The bridge says itself whether it goes on. */
    lemma AliveIs(p: Point)
      requires At(p)
      ensures p.course.Going? <==> f.outcome == BridgeRequest.Proceed && !f.overrun
      ensures p.result.Going? <==> g.exited == BridgeResponse.Unset && !g.strayed
    {
      hide BridgeRequest.StdinWire, BridgeRequest.Sized;
    }

    lemma NothingReady(p: Point, t: Turn, s: Sets)
      requires sock > 0 && Alive(p) && Posts(p, t, 0, s) && s.readPosted == {} && s.writePosted == {}
      ensures AfterWrite(p, sock, t) == p
    {
      assert 0 in t.readable && ReadsStdin(p.course.flow) ==> 0 in s.readPosted;
      assert sock in t.readable ==> sock in s.readPosted;
      assert sock in t.writable && p.course.flow.unsent > 0 ==> sock in s.writePosted;
    }

    lemma PossibleWrite(v: BridgeRequest.Flow, w: Writing)
      requires v.unsent > 0
      ensures BridgeRequest.Happens(v, WriteEvent(w, v.unsent)) != BridgeRequest.Impossible
    {
    }
  }

  lemma FirstTurn(contentLength: int, sock: nat)
    ensures RunOf(contentLength, sock, []) == StartPoint(contentLength)
  {
  }

  lemma NextTurn(contentLength: int, sock: nat, turns: seq<Turn>, i: nat)
    requires i < |turns|
    ensures var p := RunOf(contentLength, sock, turns[..i]);
            RunOf(contentLength, sock, turns[..i + 1]) == if Looping(p) then AfterWrite(p, sock, turns[i]) else p
  {
    assert turns[..i + 1][..i] == turns[..i];
  }
}
