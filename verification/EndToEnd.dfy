/**
  The bridge and the library together: what one sends is what the other makes of it.
 */
module EndToEnd {
  import opened Seqs
  import opened Protocol
  import opened NameValue
  import opened Environment
  import opened Connection
  import opened ReaderSpec
  import opened RecordStream
  import opened InputStream
  import OutputStream
  import Response
  import opened Request
  import BridgeRequest
  import BridgeResponse
  import EventLoop

  // ---------------------------------------------------------------- accepting a sequence of records

  function StreamContext(t: byte, id: int, eofCode: int): Context {
    Context(t, id, true, 0, eofCode)
  }

  predicate IsBegin(b: Record) {
    && Legal(b) && b.rtype == BEGIN_REQUEST && b.id != 0 && |b.content| == 8 && b.padding == []
    && RESPONDER <= Word(b.content[0], b.content[1]) <= FILTER
  }

  /** One stream of a request: regular records, then an unpadded empty one. */
  predicate IsPhase(ctx: Context, rs: seq<Record>, e: Record) {
    AllRegular(ctx, rs) && Final(ctx, e) && e.padding == []
  }

  function PhaseBytes(rs: seq<Record>, e: Record, w: seq<byte>): seq<byte> {
    EncodeAll(rs) + (EncodeRecord(e) + w)
  }

  /** One phase delivers exactly its own stream and hands over at the next phase's first byte. */
  lemma PhaseHandoff(ctx: Context, rs: seq<Record>, e: Record, w: seq<byte>)
    requires Listening(ctx) && IsPhase(ctx, rs, e)
    ensures Future(ctx, 0, 0, false, PhaseBytes(rs, e, w)) == Run(Contents(ctx, rs), AllDue(rs), Eof(w))
  {
    hide Future, EncodeAll, EncodeRecord;
    StreamOfRecords(ctx, rs, e, w);
    Unit(w);
  }

  /** A request's records make FCGX_Accept_r produce its role and environment, and stop at its STDIN. */
  lemma AcceptsRecords(id0: int, eofCode: int, b: Record, rs: seq<Record>, e: Record, w: seq<byte>)
    requires IsBegin(b)
    requires var ctx := StreamContext(PARAMS, b.id, eofCode);
             IsPhase(ctx, rs, e) && Decode(Contents(ctx, rs)).outcome == Complete
    ensures var role := Word(b.content[0], b.content[1]);
            AttemptOn(id0, eofCode, EncodeRecord(b) + PhaseBytes(rs, e, w))
            == Accepted(b.id, b.content[2] % 2 == 1, role,
                        [Entry(RolePair(role))]
                        + Entries(Decode(Contents(StreamContext(PARAMS, b.id, eofCode), rs)).pairs),
                        AllDue(rs), Eof(w))
  {
    hide Future, EncodeRecord, PhaseBytes, Decode, RolePair, Entry, Contents;
    var t := PhaseBytes(rs, e, w);
    BeginRecord(Context(0, id0, false, 0, eofCode), b, t);
    Unit(t);
    PhaseHandoff(StreamContext(PARAMS, b.id, eofCode), rs, e, w);
  }

  /** A FILTER request: three streams one after the other on one connection, each delivered as its own. */
  lemma FilterPhases(id0: int, eofCode: int, b: Record,
                     ps: seq<Record>, pe: Record, ss: seq<Record>, se: Record, ds: seq<Record>, de: Record,
                     w: seq<byte>)
    requires IsBegin(b) && Word(b.content[0], b.content[1]) == FILTER
    requires IsPhase(StreamContext(PARAMS, b.id, eofCode), ps, pe)
    requires Decode(Contents(StreamContext(PARAMS, b.id, eofCode), ps)).outcome == Complete
    requires IsPhase(StreamContext(STDIN, b.id, eofCode), ss, se) && IsPhase(StreamContext(DATA, b.id, eofCode), ds, de)
    ensures var data := PhaseBytes(ds, de, w);
            var stdin := PhaseBytes(ss, se, data);
            var a := AttemptOn(id0, eofCode, EncodeRecord(b) + PhaseBytes(ps, pe, stdin));
            && a.Accepted? && a.id == b.id && a.role == FILTER && a.stop == Eof(stdin)
            && Future(StreamContext(STDIN, b.id, eofCode), 0, 0, false, stdin)
               == Run(Contents(StreamContext(STDIN, b.id, eofCode), ss), AllDue(ss), Eof(data))
            && Future(StreamContext(DATA, b.id, eofCode), 0, 0, false, data)
               == Run(Contents(StreamContext(DATA, b.id, eofCode), ds), AllDue(ds), Eof(w))
  {
    hide Future, EncodeRecord, PhaseBytes, Decode, RolePair, Entry, Contents, AttemptOn;
    var data := PhaseBytes(ds, de, w);
    var stdin := PhaseBytes(ss, se, data);
    AcceptsRecords(id0, eofCode, b, ps, pe, stdin);
    PhaseHandoff(StreamContext(STDIN, b.id, eofCode), ss, se, data);
    PhaseHandoff(StreamContext(DATA, b.id, eofCode), ds, de, w);
  }

  // ---------------------------------------------------------------- the bridge's request

  /** Records of one stream and nothing else. */
  lemma {:induction false} PlainStream(ctx: Context, rs: seq<Record>)
    requires Listening(ctx)
    requires forall i :: 0 <= i < |rs| ==> Legal(rs[i]) && Mine(ctx, rs[i]) && rs[i].content != []
    ensures AllRegular(ctx, rs) && Contents(ctx, rs) == OutputStream.Joined(rs) && AllDue(rs) == []
  {
    if rs != [] {
      PlainStream(ctx, rs[1..]);
      assert forall i :: 1 <= i < |rs| ==> rs[i] == rs[1..][i - 1];
    }
  }

  /** All that main and the event loop send. */
  function BridgeWire(pre: seq<Record>, chunks: seq<seq<byte>>): seq<byte> {
    EncodeAll(pre) + EncodeAll(BridgeRequest.StdinRecords(chunks) + [BridgeRequest.STDIN_EOF])
  }

  lemma {:induction false} JoinedStdin(chunks: seq<seq<byte>>)
    ensures OutputStream.Joined(BridgeRequest.StdinRecords(chunks)) == Flatten(chunks)
  {
    if chunks != [] {
      var n := |chunks| - 1;
      var c := Plain(STDIN, BridgeRequest.REQUEST_ID, chunks[n], 0);
      assert BridgeRequest.StdinRecords(chunks) == BridgeRequest.StdinRecords(chunks[..n]) + [c];
      OutputStream.JoinedConcat(BridgeRequest.StdinRecords(chunks[..n]), [c]);
      assert [c][1..] == [];
      Unit(c.content);
      JoinedStdin(chunks[..n]);
    }
  }

  /** The bridge's wire, in the shape of BEGIN_REQUEST and two phases. */
  lemma WireShape(pre: seq<Record>, content: seq<byte>, chunks: seq<seq<byte>>)
    requires BridgeRequest.Preamble(pre, content, BridgeRequest.BUFFLEN)
    ensures BridgeWire(pre, chunks)
            == EncodeRecord(BridgeRequest.BeginRecord())
               + PhaseBytes(pre[1..|pre| - 1], pre[|pre| - 1],
                            PhaseBytes(BridgeRequest.StdinRecords(chunks), BridgeRequest.STDIN_EOF, []))
  {
    hide EncodeRecord, BridgeRequest.BeginRecord;
    var n := |pre| - 1;
    var b, ps, e := pre[0], pre[1..n], pre[n];
    assert pre == [b] + (ps + [e]);
    EncodeAllCons(b, ps + [e]);
    EncodeAllSnoc(ps, e);
    var s := BridgeRequest.StdinRecords(chunks);
    EncodeAllSnoc(s, BridgeRequest.STDIN_EOF);
    var t := EncodeAll(s) + EncodeRecord(BridgeRequest.STDIN_EOF);
    Unit(EncodeRecord(BridgeRequest.STDIN_EOF));
    Assoc(EncodeRecord(b), EncodeAll(ps) + EncodeRecord(e), t);
    Assoc(EncodeAll(ps), EncodeRecord(e), t);
  }

  /**
    What the bridge sends for any environment and any standard input makes FCGX_Accept_r
    produce exactly that environment behind its role, and the input stream exactly that input.
   */
  lemma RequestEndToEnd(environ: seq<seq<byte>>, pre: seq<Record>, chunks: seq<seq<byte>>, id0: int, eofCode: int)
    requires BridgeRequest.AllSettings(environ)
    requires BridgeRequest.Preamble(pre, EncodePairs(BridgeRequest.Settings(environ)), BridgeRequest.BUFFLEN)
    requires forall i :: 0 <= i < |chunks| ==> 0 < |chunks[i]| <= MAX_LENGTH
    ensures var a := AttemptOn(id0, eofCode, BridgeWire(pre, chunks));
            && a.Accepted? && a.id == BridgeRequest.REQUEST_ID && a.role == RESPONDER && !a.keep && a.replies == []
            && a.env == [Bytes("FCGI_ROLE=RESPONDER")] + environ
            && a.stop.Eof?
            && Future(StreamContext(STDIN, a.id, eofCode), 0, 0, false, a.stop.rest)
               == Run(Flatten(chunks), [], Eof([]))
  {
    hide Future, EncodeRecord, PhaseBytes, Decode, Entry, Contents, AttemptOn, BridgeWire, EncodePairs,
         BridgeRequest.Settings;
    var ps, e := pre[1..|pre| - 1], pre[|pre| - 1];
    var content := EncodePairs(BridgeRequest.Settings(environ));
    var s := BridgeRequest.StdinRecords(chunks);
    var stdin := PhaseBytes(s, BridgeRequest.STDIN_EOF, []);
    var ctxP, ctxS := StreamContext(PARAMS, BridgeRequest.REQUEST_ID, eofCode),
        StreamContext(STDIN, BridgeRequest.REQUEST_ID, eofCode);
    WireShape(pre, content, chunks);
    PlainStream(ctxP, ps);
    DecodeEncode(BridgeRequest.Settings(environ));
    BridgeBegin();
    AcceptsRecords(id0, eofCode, BridgeRequest.BeginRecord(), ps, e, stdin);
    PlainStream(ctxS, s);
    JoinedStdin(chunks);
    PhaseHandoff(ctxS, s, BridgeRequest.STDIN_EOF, []);
  }

  lemma BridgeBegin()
    ensures var b := BridgeRequest.BeginRecord();
            && IsBegin(b) && Word(b.content[0], b.content[1]) == RESPONDER && b.content[2] % 2 == 0
            && b.id == BridgeRequest.REQUEST_ID
    ensures Entry(RolePair(RESPONDER)) == Bytes("FCGI_ROLE=RESPONDER")
  {
    assert Zeros(0) == [];
    assert "FCGI_ROLE=RESPONDER" == "FCGI_ROLE" + "=" + "RESPONDER";
    assert Bytes("FCGI_ROLE=RESPONDER") == Bytes("FCGI_ROLE") + [EQUALS] + Bytes("RESPONDER");
  }

  // ---------------------------------------------------------------- a request cut short

  /**
    A connection that ends before its PARAMS stream does, at any byte, is nevertheless accepted,
    if and only if BEGIN_REQUEST has arrived and the contents that have arrived end between two
    pairs: ReadParams takes any end of its stream for a good one.
   */
  lemma CutShortRequest(id0: int, eofCode: int, b: Record, rs: seq<Record>, k: nat)
    requires IsBegin(b) && AllRegular(StreamContext(PARAMS, b.id, eofCode), rs) && eofCode != 0
    requires k <= |EncodeRecord(b) + EncodeAll(rs)|
    ensures var a := AttemptOn(id0, eofCode, (EncodeRecord(b) + EncodeAll(rs))[..k]);
            var n, role := |EncodeRecord(b)|, Word(b.content[0], b.content[1]);
            if k < n then a == Rejected
            else
              var d := Decode(CutContents(StreamContext(PARAMS, b.id, eofCode), rs, k - n));
              a == if d.outcome != Complete then Rejected
                   else Accepted(b.id, b.content[2] % 2 == 1, role, [Entry(RolePair(role))] + Entries(d.pairs),
                                 CutDue(rs, k - n), Failed(eofCode))
    ensures IdOf(id0, eofCode, (EncodeRecord(b) + EncodeAll(rs))[..k]) == if k < HEADER_LEN then id0 else b.id
  {
    hide Future, EncodeRecord, EncodeAll, Decode, RolePair, Entry, Contents, CutContents, CutDue;
    var n := |EncodeRecord(b)|;
    var ctx := Context(0, id0, false, 0, eofCode);
    if k < n {
      assert (EncodeRecord(b) + EncodeAll(rs))[..k] == EncodeRecord(b)[..k];
      CutBegin(ctx, b, k);
    } else {
      PrefixBeyond(EncodeRecord(b), EncodeAll(rs), k);
      var w := EncodeAll(rs)[..k - n];
      BeginRecord(ctx, b, w);
      Unit(w);
      StreamCutShort(StreamContext(PARAMS, b.id, eofCode), rs, k - n);
    }
  }

  lemma CutBegin(ctx: Context, b: Record, k: nat)
    requires IsBegin(b) && !ctx.begun && k < |EncodeRecord(b)|
    ensures Future(ctx, 0, 0, false, EncodeRecord(b)[..k])
            == if k < HEADER_LEN then Fail(ctx, ctx.eofCode) else Run([], [], Cut(b.id, EofErrno(ctx)))
  {
    hide EncodeRecord, Nested, ParseHeader;
    var w := EncodeRecord(b)[..k];
    if k >= HEADER_LEN {
      Unit(EncodeRecord(b));
      RecordParts(b, []);
      assert w[..HEADER_LEN] == EncodeRecord(b)[..HEADER_LEN];
      var body := w[HEADER_LEN..];
      ShortNested(EofErrno(ctx), 8, 0, body);
      assert Future(ctx, 0, 0, false, w) == AfterBegin(ctx, b.id, 8, 0, false, body);
    }
  }

  /** So a bare BEGIN_REQUEST followed by a hang-up is a request with no environment but its role. */
  lemma BareBeginIsAccepted(id0: int, eofCode: int)
    ensures AttemptOn(id0, eofCode, EncodeRecord(BridgeRequest.BeginRecord()))
            == Accepted(BridgeRequest.REQUEST_ID, false, RESPONDER, [Entry(RolePair(RESPONDER))], [], Failed(eofCode))
  {
    hide Future, EncodeRecord, RolePair, Entry, BridgeRequest.BeginRecord;
    var b := BridgeRequest.BeginRecord();
    BridgeBegin();
    Unit(EncodeRecord(b));
    BeginRecord(Context(0, id0, false, 0, eofCode), b, []);
    Unit(b.padding);
    EndOfInput(StreamContext(PARAMS, b.id, eofCode));
    Unit([Entry(RolePair(RESPONDER))]);
  }

  /** The environment string and the value of FCGI_ROLE for a role, as the specification spells them. */
  predicate Spelled(role: int, entry: seq<byte>, value: Slot) {
    if role == 1 then entry == Bytes("FCGI_ROLE=RESPONDER") && value == Str(Bytes("RESPONDER"))
    else if role == 2 then entry == Bytes("FCGI_ROLE=AUTHORIZER") && value == Str(Bytes("AUTHORIZER"))
    else role == 3 && entry == Bytes("FCGI_ROLE=FILTER") && value == Str(Bytes("FILTER"))
  }

  /**
    Whatever was accepted, somewhere in it is a BEGIN_REQUEST whose bytes say id, flag and role,
    and that role, spelled out, is the first entry of the environment and what looking up
    FCGI_ROLE gives, whatever else the server sends under that name.
   */
  lemma RoleInEnvironment(id0: int, eofCode: int, wire: seq<byte>)
    requires AttemptOn(id0, eofCode, wire).Accepted?
    ensures var a := AttemptOn(id0, eofCode, wire);
            && (exists k: nat :: BeginAt(wire, k, a.id, a.keep, a.role))
            && a.env != [] && Spelled(a.role, a.env[0], FirstBinding(Bytes("FCGI_ROLE"), a.env))
  {
    hide Future, Decode, Entries, Entry, Bytes, FirstBinding, CString, RolePair, Spelled, BeginAt;
    var a := AttemptOn(id0, eofCode, wire);
    RoleIsReported(id0, eofCode, wire);
    var ctx := Context(0, id0, false, 0, eofCode);
    BeganSomewhere(ctx, 0, 0, false, wire);
    var s := Future(ctx, 0, 0, false, wire).stop;
    var k: nat :| k + 16 + |s.rest| == |wire| && BeginAt(wire, k, s.id, s.keep, s.role) && wire[k + 16..] == s.rest;
    SpelledOut(a.role, a.env);
  }

  lemma SpelledOut(role: int, env: seq<seq<byte>>)
    requires RESPONDER <= role <= FILTER && env != [] && env[0] == Entry(RolePair(role))
    requires FirstBinding(Bytes(ROLE_NAME), env) == Str(Bytes(RoleString(role)))
    ensures Spelled(role, env[0], FirstBinding(Bytes("FCGI_ROLE"), env))
  {
    hide FirstBinding;
    RoleEntries();
  }

  lemma RoleEntries()
    ensures Bytes("FCGI_ROLE") + [EQUALS] + Bytes("RESPONDER") == Bytes("FCGI_ROLE=RESPONDER")
    ensures Bytes("FCGI_ROLE") + [EQUALS] + Bytes("AUTHORIZER") == Bytes("FCGI_ROLE=AUTHORIZER")
    ensures Bytes("FCGI_ROLE") + [EQUALS] + Bytes("FILTER") == Bytes("FCGI_ROLE=FILTER")
  {
    assert "FCGI_ROLE=RESPONDER" == "FCGI_ROLE" + "=" + "RESPONDER";
    assert "FCGI_ROLE=AUTHORIZER" == "FCGI_ROLE" + "=" + "AUTHORIZER";
    assert "FCGI_ROLE=FILTER" == "FCGI_ROLE" + "=" + "FILTER";
  }

  /**
    A connection that starts with a BEGIN_REQUEST, of any id, length and role: it is accepted
    only with an id, a body of eight bytes and one of the three roles, and then with what that
    body says.
   */
  lemma FirstBeginDecides(id0: int, eofCode: int, b: Record, w: seq<byte>)
    requires Legal(b) && b.rtype == 1
    ensures var a := AttemptOn(id0, eofCode, EncodeRecord(b) + w);
            if b.id == 0 || |b.content| != 8 then a == Rejected
            else
              var r1: int, r0: int := b.content[0], b.content[1];
              var role := r1 * 256 + r0;
              && (!(1 <= role <= 3) ==> a == Rejected)
              && (a.Accepted? ==> a.id == b.id && a.role == role && a.keep == (b.content[2] % 2 == 1))
  {
    hide Future, EncodeRecord, Decode, RolePair, Entry;
    AnyBegin(Context(0, id0, false, 0, eofCode), false, b, w);
  }

  /** FCGI_ROLE reports the role of BEGIN_REQUEST, even if the server sends that name as well. */
  lemma RoleIsReported(id0: int, eofCode: int, wire: seq<byte>)
    requires AttemptOn(id0, eofCode, wire).Accepted?
    ensures var a := AttemptOn(id0, eofCode, wire);
            RESPONDER <= a.role <= FILTER && FirstBinding(Bytes(ROLE_NAME), a.env) == Str(Bytes(RoleString(a.role)))
  {
    hide Future, Decode, Entries, Entry, Bytes, FirstBinding, CString;
    var a := AttemptOn(id0, eofCode, wire);
    RoleStrings(a.role);
    assert a.env == [Entry(RolePair(a.role))] + a.env[1..];
    FirstEntryWins(RolePair(a.role), a.env[1..]);
  }

  lemma RoleStrings(role: int)
    requires RESPONDER <= role <= FILTER
    ensures EQUALS !in Bytes(ROLE_NAME) && 0 !in Bytes(RoleString(role))
  {
  }

  // ---------------------------------------------------------------- the programs at work

  /** An application reading its input to the end, in blocks of any size. */
  method ReadAll(r: Reader, block: nat) returns (s: seq<byte>)
    requires r.Valid() && !r.isClosed && !r.eorStop && r.link.isBeginProcessed && block > 0
    modifies r, r.link, r.buff
    ensures r.Shape() && r.isClosed && r.KeptRequest() && r.rtype == old(r.rtype)
    ensures r.link.endErrno == old(r.link.endErrno)
    ensures old(r.link.writeFailed) ==> r.link.writeFailed
    ensures !r.link.writeFailed ==> s == old(r.Unread()).bytes && r.After(old(r.Here()), s)
  {
    hide Comes, Passed;
    ghost var m := r.Here();
    s := [];
    PassedNothing(r.eorStop, m);
    while !r.isClosed
      invariant r.Valid() && r.Kept() && !r.eorStop
      invariant !r.link.writeFailed ==> r.After(m, s)
      decreases if r.isClosed then 0 else 1, |r.Tail(r.rdNext)|
    {
      ghost var m1 := r.Here();
      var t := r.GetStr(block);
      if !r.link.writeFailed {
        r.ReadThen(m, s, m1, t);
      }
      s := s + t;
    }
  }

  /** One turn of FCGX_Accept_r against the bridge, and an application that reads all its input. */
  method ServeBridge(slot: Acceptor, ghost environ: seq<seq<byte>>, ghost pre: seq<Record>,
                     ghost chunks: seq<seq<byte>>)
    returns (ok: bool, body: seq<byte>)
    requires slot.Valid() && slot.open && slot.out == null && slot.err == null
    requires BridgeRequest.AllSettings(environ)
    requires BridgeRequest.Preamble(pre, EncodePairs(BridgeRequest.Settings(environ)), BridgeRequest.BUFFLEN)
    requires forall i :: 0 <= i < |chunks| ==> 0 < |chunks[i]| <= MAX_LENGTH
    requires slot.link.inbound == BridgeWire(pre, chunks)
    modifies slot`input, slot`params, slot`lost, slot.link
    ensures !slot.link.writeFailed ==>
              && ok && body == Flatten(chunks)
              && slot.params != null && slot.params.Valid()
              && slot.params.Contents() == [Bytes("FCGI_ROLE=RESPONDER")] + environ
  {
    hide Future, AttemptOn, BridgeWire, EncodePairs, Bytes, Entry, Flatten, Replay, Environment.Strings,
         Environment.Terminated, EncodeAll,
         BridgeRequest.Preamble, BridgeRequest.Settings, EofCode;
    RequestEndToEnd(environ, pre, chunks, slot.link.requestId, EofCode(slot.link.endErrno));
    ok := slot.Try();
    body := [];
    if ok {
      body := ReadAll(slot.input, 1024);
    }
  }

  /** The bridge's side of a request: its environment, then what comes on standard input. */
  method Send(environ: seq<seq<byte>>, contentLength: int, events: seq<BridgeRequest.Event>, toServer: Link,
              misaligned: bool)
    returns (sent: bool, wire: seq<byte>, ghost pre: seq<Record>, ghost chunks: seq<seq<byte>>)
    requires toServer.Synced() && toServer.sent == [] && toServer.outbound == [] && !toServer.writeFailed
    requires forall i :: 0 <= i < |environ| ==> |environ[i]| < INT_MAX
    modifies toServer
    ensures sent ==> BridgeRequest.AtRest(BridgeRequest.Play(contentLength, events))
    ensures toServer.reliable ==>
              (sent <==>
                 && BridgeRequest.AllSettings(environ)
                 && EncodeRecord(BridgeRequest.BeginRecord()) <= toServer.outbound
                 && BridgeRequest.AtRest(BridgeRequest.Play(contentLength, events)))
    ensures toServer.reliable && toServer.prompt ==> EncodeRecord(BridgeRequest.BeginRecord()) <= toServer.outbound
    ensures sent ==>
              && BridgeRequest.AllSettings(environ)
              && BridgeRequest.Preamble(pre, EncodePairs(BridgeRequest.Settings(environ)), BridgeRequest.BUFFLEN)
              && (forall i :: 0 <= i < |chunks| ==> 0 < |chunks[i]| <= MAX_LENGTH)
              && wire == BridgeWire(pre, chunks) && Flatten(chunks) == BridgeRequest.StdinBytes(events)
  {
    hide EncodePairs, BridgeRequest.Settings, BridgeRequest.Preamble, EncodeAll, BridgeRequest.Play, Flatten,
         EncodeRecord, BridgeRequest.BeginRecord;
    sent, wire, pre, chunks := false, [], [], [];
    var r := BridgeRequest.SendPreamble(toServer, environ, misaligned);
    if r != BridgeRequest.Proceed || toServer.writeFailed {
      return;
    }
    var forwarder := new BridgeRequest.Forwarder(contentLength);
    var possible := forwarder.Run(contentLength, events);
    if !possible || forwarder.outcome != BridgeRequest.Proceed || forwarder.overrun {
      return;
    }
    if forwarder.fcgiWritePending || forwarder.wsReadPending {
      return;
    }
    BridgeRequest.PlayTakesAll(contentLength, events);
    return true, toServer.outbound + forwarder.received, toServer.sent, forwarder.chunks;
  }

  /** The bridge's request, arriving alone, is accepted unless a write fails. */
  lemma OneArrival(environ: seq<seq<byte>>, pre: seq<Record>, chunks: seq<seq<byte>>, s: Snap, rc: int, now: Snap,
                   lost: bool,
                   first: Tried, tries: seq<Tried>)
    requires BridgeRequest.AllSettings(environ)
    requires BridgeRequest.Preamble(pre, EncodePairs(BridgeRequest.Settings(environ)), BridgeRequest.BUFFLEN)
    requires forall i :: 0 <= i < |chunks| ==> 0 < |chunks[i]| <= MAX_LENGTH
    requires !s.open && !s.lost && |s.arrivals| == 1 && s.arrivals[0].Peer?
    requires s.arrivals[0].inbound == BridgeWire(pre, chunks)
    requires lost == LosesOn(s, tries)
    requires !lost ==> AcceptStep(s, rc, now) && Attempts(s, rc, now.arrivals, first, tries)
    ensures !lost && |tries| == 1 && now.arrivals == [] && (tries[0].broken ==> !s.arrivals[0].reliable)
    ensures !tries[0].broken ==> rc == 0
  {
    hide AttemptOn, BridgeWire, BridgeRequest.Preamble, Trail, EofCode;
    if tries != [] {
      RequestEndToEnd(environ, pre, chunks, tries[0].id, EofCode(s.arrivals[0].endErrno));
    }
  }

  /** The same for a FILTER request: the application reads STDIN to its end, then DATA. */
  method ServeFilter(slot: Acceptor, ghost b: Record, ghost ps: seq<Record>, ghost pe: Record,
                     ghost ss: seq<Record>, ghost se: Record, ghost ds: seq<Record>, ghost de: Record,
                     ghost w: seq<byte>)
    returns (ok: bool, stdin: seq<byte>, data: seq<byte>)
    requires slot.Valid() && slot.open && slot.out == null && slot.err == null
    requires IsBegin(b) && Word(b.content[0], b.content[1]) == FILTER
    requires var eofCode := EofCode(slot.link.endErrno);
             && IsPhase(StreamContext(PARAMS, b.id, eofCode), ps, pe)
             && Decode(Contents(StreamContext(PARAMS, b.id, eofCode), ps)).outcome == Complete
             && IsPhase(StreamContext(STDIN, b.id, eofCode), ss, se)
             && IsPhase(StreamContext(DATA, b.id, eofCode), ds, de)
    requires slot.link.inbound == EncodeRecord(b) + PhaseBytes(ps, pe, PhaseBytes(ss, se, PhaseBytes(ds, de, w)))
    modifies slot`input, slot`params, slot`lost, slot.link
    ensures !slot.link.writeFailed ==>
              var eofCode := EofCode(slot.link.endErrno);
              && ok && stdin == Contents(StreamContext(STDIN, b.id, eofCode), ss)
              && data == Contents(StreamContext(DATA, b.id, eofCode), ds)
  {
    hide Future, AttemptOn, PhaseBytes, EncodeRecord, Contents, Decode, IsPhase, Entry, Comes, Passed;
    FilterPhases(slot.link.requestId, EofCode(slot.link.endErrno), b, ps, pe, ss, se, ds, de, w);
    stdin, data := [], [];
    ok := slot.Try();
    if ok {
      var input := slot.input;
      stdin := ReadAll(input, 1024);
      var rc := input.StartFilterData();
      if rc == 0 {
        data := ReadAll(input, 1024);
      }
    }
  }

  /**
    The bridge relaying a complete response, read in any chunks.  It comes out whole if and only
    if no chunk but the last ends inside a header or the END_REQUEST body.
   */
  method Relay(bridge: BridgeResponse.Bridge, chunks: seq<seq<byte>>, ghost rs: seq<Record>,
               ghost out: seq<byte>, ghost err: seq<byte>, ghost status: int)
    requires bridge.Valid() && bridge.View() == BridgeResponse.INITIAL && bridge.Running()
    requires 0 <= bridge.requestId && Response.CompleteResponse(rs, bridge.requestId, out, err, status)
    requires IsInt32(status)
    requires Flatten(chunks) == EncodeAll(rs)
    requires forall i :: 0 <= i < |chunks| ==> 0 < |chunks[i]| <= BridgeRequest.BUFFLEN
    modifies bridge, bridge.fromAS, bridge.header, bridge.erBody
    ensures if BridgeResponse.SafeSplit(rs, chunks)
            then bridge.Running() && bridge.stdout == out && bridge.stderr == err && bridge.exitStatusSet
                 && bridge.exitStatus == status
            else bridge.strayed
  {
    hide BridgeResponse.Demux, BridgeResponse.SafeSplit, Response.CompleteResponse, Flatten, EncodeAll;
    ghost var id := bridge.requestId;
    BridgeResponse.ResponseInAnyChunks(id, rs, out, err, status, chunks);
    var i := 0;
    while i < |chunks| && bridge.exited == BridgeResponse.Unset && !bridge.strayed
      invariant bridge.Valid() && bridge.requestId == id && i <= |chunks|
      invariant bridge.Reached(BridgeResponse.Feed(id, BridgeResponse.INITIAL, chunks[..i]))
    {
      FeedOnce(id, chunks, i);
      bridge.Read(chunks[i]);
      i := i + 1;
    }
    assert chunks[..|chunks|] == chunks;
    if i < |chunks| {
      FeedStopped(id, chunks, i);
    }
  }

  lemma FeedOnce(id: int, chunks: seq<seq<byte>>, i: nat)
    requires i < |chunks|
    ensures var f := BridgeResponse.Feed(id, BridgeResponse.INITIAL, chunks[..i]);
            BridgeResponse.Feed(id, BridgeResponse.INITIAL, chunks[..i + 1])
            == if f.Going? then BridgeResponse.Demux(id, f.state, chunks[i]) else f
  {
    hide BridgeResponse.Demux;
    assert chunks[..i + 1][..i] == chunks[..i];
  }

  /** Once a run of reads has stopped, later reads change nothing. */
  lemma {:induction false} FeedStopped(id: int, chunks: seq<seq<byte>>, i: nat)
    requires i <= |chunks| && !BridgeResponse.Feed(id, BridgeResponse.INITIAL, chunks[..i]).Going?
    ensures BridgeResponse.Feed(id, BridgeResponse.INITIAL, chunks)
            == BridgeResponse.Feed(id, BridgeResponse.INITIAL, chunks[..i])
    decreases |chunks| - i
  {
    hide BridgeResponse.Demux, BridgeResponse.Feed;
    if i < |chunks| {
      FeedOnce(id, chunks, i);
      FeedStopped(id, chunks, i + 1);
    } else {
      assert chunks[..i] == chunks;
    }
  }

  /** Reads of the sizes asked for, of one byte at least and of a whole buffer at most. */
  function Chop(w: seq<byte>, sizes: seq<nat>): (chunks: seq<seq<byte>>)
    ensures forall i :: 0 <= i < |chunks| ==> 0 < |chunks[i]| <= BridgeRequest.BUFFLEN
    decreases |w|
  {
    if w == [] then []
    else
      var n := Min(if sizes == [] then BridgeRequest.BUFFLEN else Max(sizes[0], 1), Min(|w|, BridgeRequest.BUFFLEN));
      [w[..n]] + Chop(w[n..], if sizes == [] then [] else sizes[1..])
  }

  lemma {:induction false} FlattenCons(c: seq<byte>, chunks: seq<seq<byte>>)
    ensures Flatten([c] + chunks) == c + Flatten(chunks)
    decreases |chunks|
  {
    if chunks == [] {
      assert ([c] + chunks)[..0] == [];
      Unit(c);
    } else {
      var n := |chunks| - 1;
      assert ([c] + chunks)[..n + 1] == [c] + chunks[..n];
      FlattenCons(c, chunks[..n]);
      Assoc(c, Flatten(chunks[..n]), chunks[n]);
    }
  }

  lemma {:induction false} ChopIsWhole(w: seq<byte>, sizes: seq<nat>)
    ensures Flatten(Chop(w, sizes)) == w
    decreases |w|
  {
    if w != [] {
      var n := |Chop(w, sizes)[0]|;
      var rest := if sizes == [] then [] else sizes[1..];
      ChopIsWhole(w[n..], rest);
      FlattenCons(w[..n], Chop(w[n..], rest));
      SplitAt(w, n);
    }
  }

  /** A C int is set, so a C int is in force. */
  lemma {:induction false} IntInForce(ops: seq<Response.Op>)
    requires forall i :: 0 <= i < |ops| && ops[i].SetExitStatus? ==> IsInt32(ops[i].status)
    ensures IsInt32(Response.InForce(ops, 0))
  {
    if ops != [] {
      IntInForce(ops[..|ops| - 1]);
    }
  }

  /** FCGX_Accept_r on the bridge's connection; only a failed write can keep the request from being accepted. */
  method Receive(ghost environ: seq<seq<byte>>, ghost pre: seq<Record>, ghost stdin: seq<seq<byte>>, wire: seq<byte>,
                 endErrno: nat, stalls: nat, reliable: bool)
    returns (slot: Acceptor, ok: bool)
    requires BridgeRequest.AllSettings(environ)
    requires BridgeRequest.Preamble(pre, EncodePairs(BridgeRequest.Settings(environ)), BridgeRequest.BUFFLEN)
    requires forall i :: 0 <= i < |stdin| ==> 0 < |stdin[i]| <= MAX_LENGTH
    requires wire == BridgeWire(pre, stdin)
    ensures slot.Valid() && fresh(slot) && fresh(slot.link) && (reliable ==> ok)
    ensures ok ==>
              && slot.link.reliable == reliable
              && slot.input != null && slot.out != null && slot.err != null && slot.params != null
              && fresh({slot.input, slot.input.buff, slot.out, slot.err, slot.out.buff, slot.err.buff})
              && slot.Readable(slot.input) && slot.out.Unused() && slot.err.Unused() && slot.link.nWriters == 2
              && slot.out.wtype == STDOUT && slot.err.wtype == STDERR && slot.link.appStatus == 0
              && slot.link.requestId == BridgeRequest.REQUEST_ID && slot.link.sent == []
              && slot.input.Unread() == Run(Flatten(stdin), [], Eof([]))
              && slot.params.Valid() && slot.params.Contents() == [Bytes("FCGI_ROLE=RESPONDER")] + environ
  {
    hide Future, AttemptOn, EncodePairs, Bytes, Entry, BridgeRequest.Settings, BridgeRequest.Preamble, EncodeAll,
         BridgeWire, Flatten,
         Replay, AcceptStep, Attempts, LosesOn;
    slot := new Acceptor([Peer(wire, endErrno, stalls, reliable, false, false)]);
    ghost var s := slot.Now();
    var rc, failed;
    ghost var first, tries, a;
    rc, failed, first, tries, a := slot.Accept();
    OneArrival(environ, pre, stdin, Given(s, true), rc, slot.Now(), slot.lost, first, tries);
    ok := rc == 0 && !slot.link.writeFailed;
    if ok {
      RequestEndToEnd(environ, pre, stdin, tries[0].id, EofCode(endErrno));
    }
  }

  /**
    An application at work on an accepted request, from its streams' making to FCGX_Finish_r.
    What has been sent before, and what the reader answers meanwhile, may be anything.
   */
  method Work(slot: Acceptor, ops: seq<Response.Op>)
    returns (read: seq<byte>, ghost rs: seq<Record>, ghost answers: seq<Record>)
    requires slot.Valid() && slot.input != null && slot.out != null && slot.err != null
    requires slot.Readable(slot.input) && slot.out.Unused() && slot.err.Unused() && slot.link.nWriters == 2
    requires slot.out.wtype == STDOUT && slot.err.wtype == STDERR
    modifies slot, slot.link, slot.out, slot.err, slot.out.buff, slot.err.buff, slot.input, slot.input.buff
    ensures slot.Valid() && slot.link == old(slot.link) && (slot.link.reliable ==> !slot.link.writeFailed)
    ensures !slot.link.writeFailed && !Response.Overreads(old(slot.input.Unread()), ops) ==>
              var promise, base := old(slot.input.Unread()), old(slot.link.sent);
              && read == promise.bytes[..Min(Response.Requested(ops), |promise.bytes|)]
              && base <= slot.link.sent && Response.Woven(slot.link.sent[|base|..], rs, answers)
              && answers <= promise.replies
              && Response.CompleteResponse(rs, old(slot.link.requestId) % 65536, Response.Taken(ops, Response.Out),
                                           Response.Taken(ops, Response.Err),
                                           Response.InForce(ops, old(slot.link.appStatus)))
  {
    hide Comes, Response.CompleteResponse, Response.Taken, Response.InForce, Response.Requested, Response.Overreads,
         Response.Ledger, Response.Woven,
         OutputStream.Frame, OutputStream.CloseRecords, EncodeAll, Replay;
    var out, err := slot.out, slot.err;
    UnreadIsLegal(slot.input);
    var streams := new Response.Streams(out, err, slot.input);
    read := streams.Run(ops);
    rs, answers := [], streams.answers;
    if !slot.link.writeFailed && !Response.Overreads(streams.promise, ops) {
      ghost var sent := slot.link.sent + err.Closing(slot.link.nWriters == 1)
                        + out.Closing(slot.link.nWriters - (if err.wasFCloseCalled then 0 else 1) == 1);
      streams.WhenFinished(sent);
      rs := streams.mine + (err.Closing(slot.link.nWriters == 1)
                            + out.Closing(slot.link.nWriters - (if err.wasFCloseCalled then 0 else 1) == 1));
    }
    var failed := slot.Finish();
  }

  lemma UnreadIsLegal(r: Reader)
    requires r.Valid() && !r.isClosed && !r.eorStop
    ensures AllLegal(r.Unread().replies)
  {
    RepliesAreLegal(r.Ctx(), r.contentLen, r.paddingLen, r.skip, r.Tail(r.stop));
  }

  /** The application server's side: what it reads of the bridge's request, and what it sends back. */
  method Answer(ghost environ: seq<seq<byte>>, ghost pre: seq<Record>, ghost stdin: seq<seq<byte>>, wire: seq<byte>,
                endErrno: nat, stalls: nat, reliable: bool, ops: seq<Response.Op>)
    returns (ok: bool, ghost env: seq<seq<byte>>, read: seq<byte>, ghost rs: seq<Record>, outbound: seq<byte>)
    requires BridgeRequest.AllSettings(environ)
    requires BridgeRequest.Preamble(pre, EncodePairs(BridgeRequest.Settings(environ)), BridgeRequest.BUFFLEN)
    requires forall i :: 0 <= i < |stdin| ==> 0 < |stdin[i]| <= MAX_LENGTH
    requires wire == BridgeWire(pre, stdin)
    ensures reliable ==> ok
    ensures ok ==>
              && env == [Bytes("FCGI_ROLE=RESPONDER")] + environ
              && read == Flatten(stdin)[..Min(Response.Requested(ops), |Flatten(stdin)|)]
              && Response.CompleteResponse(rs, BridgeRequest.REQUEST_ID, Response.Taken(ops, Response.Out),
                                           Response.Taken(ops, Response.Err), Response.InForce(ops, 0))
              && outbound == EncodeAll(rs)
  {
    hide Future, EncodePairs, Bytes, Entry, BridgeRequest.Settings, BridgeRequest.Preamble, EncodeAll, BridgeWire,
         Flatten,
         Response.CompleteResponse, Response.Taken, Response.InForce, Response.Requested, Replay, Comes;
    env, read, rs, outbound := [], [], [], [];
    var slot;
    slot, ok := Receive(environ, pre, stdin, wire, endErrno, stalls, reliable);
    if !ok {
      return;
    }
    env := slot.params.Contents();
    ghost var answers;
    read, rs, answers := Work(slot, ops);
    ok := !slot.link.writeFailed;
    outbound := slot.link.outbound;
    if ok {
      assert slot.link.sent[0..] == slot.link.sent;
      Response.WovenAlone(slot.link.sent, rs);
    }
  }

  /**
    A whole exchange.  The bridge sends its environment and forwards what comes on standard
    input; the library accepts the request; the application makes any calls on its streams and
    finishes; and the bridge relays the response, read in any sizes.  The
    bridge does not repeat its first write if that was a short one, as on a prompt connection it is not.
   */
  method Exchange(environ: seq<seq<byte>>, contentLength: int, events: seq<BridgeRequest.Event>, toServer: Link,
                  misaligned: bool,
                  endErrno: nat, stalls: nat, reliable: bool, ops: seq<Response.Op>, sizes: seq<nat>)
    returns (sent: bool, ok: bool, ghost env: seq<seq<byte>>, read: seq<byte>, ghost rs: seq<Record>,
             chunks: seq<seq<byte>>, bridge: BridgeResponse.Bridge)
    requires toServer.Synced() && toServer.sent == [] && toServer.outbound == [] && !toServer.writeFailed
    requires forall i :: 0 <= i < |environ| ==> |environ[i]| < INT_MAX
    requires forall i :: 0 <= i < |ops| && ops[i].SetExitStatus? ==> IsInt32(ops[i].status)
    modifies toServer
    ensures sent ==>
              BridgeRequest.AllSettings(environ) && BridgeRequest.AtRest(BridgeRequest.Play(contentLength, events))
    ensures toServer.reliable ==>
              (sent <==>
                 && BridgeRequest.AllSettings(environ)
                 && EncodeRecord(BridgeRequest.BeginRecord()) <= toServer.outbound
                 && BridgeRequest.AtRest(BridgeRequest.Play(contentLength, events)))
    ensures toServer.reliable && toServer.prompt ==> EncodeRecord(BridgeRequest.BeginRecord()) <= toServer.outbound
    ensures ok ==> sent
    ensures sent && reliable ==> ok
    ensures ok ==>
              && env == [Bytes("FCGI_ROLE=RESPONDER")] + environ
              && (var stdin := BridgeRequest.StdinBytes(events);
                  read == stdin[..Min(Response.Requested(ops), |stdin|)])
              && Response.CompleteResponse(rs, BridgeRequest.REQUEST_ID, Response.Taken(ops, Response.Out),
                                           Response.Taken(ops, Response.Err), Response.InForce(ops, 0))
              && chunks == Chop(EncodeAll(rs), sizes)
              && if BridgeResponse.SafeSplit(rs, chunks) then
                   && bridge.stdout == Response.Taken(ops, Response.Out)
                   && bridge.stderr == Response.Taken(ops, Response.Err)
                   && bridge.exitStatusSet && bridge.exitStatus == Response.InForce(ops, 0)
                 else
                   bridge.strayed
  {
    hide EncodePairs, Bytes, BridgeRequest.Settings, BridgeRequest.Preamble, EncodeAll, EncodeRecord,
         BridgeRequest.BeginRecord, BridgeRequest.Play,
         Response.CompleteResponse, Response.Taken, Response.InForce, Response.Requested, BridgeResponse.SafeSplit,
         BridgeWire, Flatten, Chop;
    ok, env, read, rs, chunks := false, [], [], [], [];
    bridge := new BridgeResponse.Bridge(BridgeRequest.REQUEST_ID);
    var wire;
    ghost var pre, stdin;
    sent, wire, pre, stdin := Send(environ, contentLength, events, toServer, misaligned);
    if !sent {
      return;
    }
    var outbound;
    ok, env, read, rs, outbound := Answer(environ, pre, stdin, wire, endErrno, stalls, reliable, ops);
    if !ok {
      return;
    }
    chunks := Chop(outbound, sizes);
    ChopIsWhole(outbound, sizes);
    IntInForce(ops);
    Relay(bridge, chunks, rs, Response.Taken(ops, Response.Out), Response.Taken(ops, Response.Err),
          Response.InForce(ops, 0));
  }

  /** The bridge's side by its event loop: its environment, then whatever its turns bring. */
  method SendByLoop(environ: seq<seq<byte>>, contentLength: int, sock: nat, turns: seq<EventLoop.Turn>,
                    toServer: Link, misaligned: bool)
    returns (sent: bool, loop: EventLoop.Loop, wire: seq<byte>, ghost pre: seq<Record>, ghost chunks: seq<seq<byte>>)
    requires toServer.Synced() && toServer.sent == [] && toServer.outbound == [] && !toServer.writeFailed && sock > 0
    requires forall i :: 0 <= i < |environ| ==> |environ[i]| < INT_MAX
    modifies toServer
    ensures sent ==>
              && loop.sock == sock && loop.Valid(EventLoop.RunOf(contentLength, sock, turns))
              && BridgeRequest.AtRest(EventLoop.RunOf(contentLength, sock, turns).course)
              && BridgeRequest.AllSettings(environ)
              && BridgeRequest.Preamble(pre, EncodePairs(BridgeRequest.Settings(environ)), BridgeRequest.BUFFLEN)
              && (forall i :: 0 <= i < |chunks| ==> 0 < |chunks[i]| <= MAX_LENGTH)
              && wire == BridgeWire(pre, chunks)
              && Flatten(chunks) == BridgeRequest.StdinBytes(EventLoop.Log(contentLength, sock, turns))
    ensures toServer.reliable ==>
              (sent <==>
                 && BridgeRequest.AllSettings(environ)
                 && EncodeRecord(BridgeRequest.BeginRecord()) <= toServer.outbound
                 && BridgeRequest.AtRest(EventLoop.RunOf(contentLength, sock, turns).course))
  {
    hide EncodePairs, BridgeRequest.Settings, BridgeRequest.Preamble, EncodeAll, BridgeRequest.Play, Flatten,
         EncodeRecord,
         BridgeRequest.BeginRecord, EventLoop.RunOf, EventLoop.Log, EventLoop.Slots;
    sent, wire, pre, chunks := false, [], [], [];
    loop := new EventLoop.Loop(contentLength, sock);
    var r := BridgeRequest.SendPreamble(toServer, environ, misaligned);
    if r != BridgeRequest.Proceed || toServer.writeFailed {
      return;
    }
    loop.Run(contentLength, turns);
    EventLoop.OnlyPossible(contentLength, sock, turns);
    var f := loop.f;
    if f.outcome != BridgeRequest.Proceed || f.overrun || f.fcgiWritePending || f.wsReadPending {
      return;
    }
    f.AllForwarded();
    BridgeRequest.PlayTakesAll(contentLength, EventLoop.Log(contentLength, sock, turns));
    sent, wire, pre, chunks := true, toServer.outbound + f.received, toServer.sent, f.chunks;
  }

  /**
    The whole exchange by the event loop, standard input and the answer coming in any order and
    in any pieces: if the bytes the loop has read are those the library has sent, it has written
    out what the application wrote, and has its exit status.
   */
  method ExchangeByLoop(environ: seq<seq<byte>>, contentLength: int, sock: nat, turns: seq<EventLoop.Turn>,
                        toServer: Link, misaligned: bool, endErrno: nat, stalls: nat, reliable: bool,
                        ops: seq<Response.Op>)
    returns (sent: bool, ok: bool, ghost env: seq<seq<byte>>, read: seq<byte>, ghost rs: seq<Record>,
             loop: EventLoop.Loop)
    requires toServer.Synced() && toServer.sent == [] && toServer.outbound == [] && !toServer.writeFailed && sock > 0
    requires forall i :: 0 <= i < |environ| ==> |environ[i]| < INT_MAX
    requires forall i :: 0 <= i < |ops| && ops[i].SetExitStatus? ==> IsInt32(ops[i].status)
    modifies toServer
    ensures toServer.reliable ==>
              (sent <==>
                 && BridgeRequest.AllSettings(environ)
                 && EncodeRecord(BridgeRequest.BeginRecord()) <= toServer.outbound
                 && BridgeRequest.AtRest(EventLoop.RunOf(contentLength, sock, turns).course))
    ensures ok ==> sent
    ensures sent && reliable ==> ok
    ensures ok ==>
              var stdin := BridgeRequest.StdinBytes(EventLoop.Log(contentLength, sock, turns));
              && env == [Bytes("FCGI_ROLE=RESPONDER")] + environ
              && read == stdin[..Min(Response.Requested(ops), |stdin|)]
              && Response.CompleteResponse(rs, BridgeRequest.REQUEST_ID, Response.Taken(ops, Response.Out),
                                           Response.Taken(ops, Response.Err), Response.InForce(ops, 0))
    ensures ok && Flatten(EventLoop.Replies(contentLength, sock, turns)) == EncodeAll(rs) ==>
              if BridgeResponse.SafeSplit(rs, EventLoop.Replies(contentLength, sock, turns)) then
                && loop.g.stdout == Response.Taken(ops, Response.Out)
                && loop.g.stderr == Response.Taken(ops, Response.Err)
                && loop.g.exitStatusSet && loop.g.exitStatus == Response.InForce(ops, 0)
              else
                loop.g.strayed
  {
    hide EncodePairs, Bytes, BridgeRequest.Settings, BridgeRequest.Preamble, EncodeAll, EncodeRecord,
         BridgeRequest.BeginRecord, Response.CompleteResponse, Response.Taken, Response.InForce, Response.Requested,
         BridgeResponse.SafeSplit, BridgeWire, Flatten, EventLoop.RunOf, EventLoop.Log, EventLoop.Replies,
         EventLoop.Loop.Armed;
    ok, env, read, rs := false, [], [], [];
    var wire;
    ghost var pre, stdin;
    sent, loop, wire, pre, stdin := SendByLoop(environ, contentLength, sock, turns, toServer, misaligned);
    if !sent {
      return;
    }
    var outbound;
    ok, env, read, rs, outbound := Answer(environ, pre, stdin, wire, endErrno, stalls, reliable, ops);
    if ok && Flatten(EventLoop.Replies(contentLength, sock, turns)) == EncodeAll(rs) {
      IntInForce(ops);
      EventLoop.LoopRelays(contentLength, sock, turns, rs, Response.Taken(ops, Response.Out),
                           Response.Taken(ops, Response.Err), Response.InForce(ops, 0));
    }
  }

  // ---------------------------------------------------------------- a pushback below the buffer

  /** The end of a stream, whose last byte comes late. */
  function LateEof(): (w: seq<byte>)
    ensures |w| == HEADER_LEN
  {
    EncodeRecord(Plain(STDIN, 1, [], 0))
  }

  /** PARAMS without content, one byte of STDIN, and all but the last byte of the record that ends it. */
  function EarlyBytes(x: byte): (w: seq<byte>)
    ensures |w| == 24
  {
    EncodeRecord(Plain(PARAMS, 1, [], 0)) + (EncodeRecord(Plain(STDIN, 1, [x], 0)) + LateEof()[..7])
  }

  /** A FILTER request's reader behind BEGIN_REQUEST, which came alone. */
  method BeginFilter() returns (r: Reader)
    ensures Eager(r) && fresh(r) && fresh(r.link) && fresh(r.buff) && r.rdNext == r.buffStop && r.link.inbound == []
  {
    hide Future, EncodeRecord, EofCode;
    var b := Plain(BEGIN_REQUEST, 1, BeginRequestBody(FILTER, false), 0);
    var link := new Link(EncodeRecord(b), 0, 0, true, true, true);
    r := new Reader(link, 8192, 0);
    Unit(EncodeRecord(b));
    r.NothingDelivered();
    BeginRecord(Context(0, 0, false, 0, EofCode(0)), b, []);
    var begun := r.ReadBegin();
    assert r.Tail(r.rdNext) == [];
  }

  /** The reader of that request, on a connection whose reads bring all they can. */
  ghost predicate Eager(r: Reader)
    reads r, r.link
  {
    && r.Shape() && r.errno == 0 && r.buff.Length == 8192 && r.link.eager && r.link.reliable
    && r.link.isBeginProcessed && r.link.role == FILTER && r.link.requestId == 1
  }

  /** One GetChar where the run of the stream is known and answers nothing. */
  method Step(r: Reader, ghost u: Run) returns (c: int)
    requires Eager(r) && r.Valid() && !r.isClosed && !r.eorStop && r.rdNext == r.stop
    requires r.Unread() == u && u.replies == [] && u.stop.Eof?
    modifies r, r.link, r.buff
    ensures Eager(r) && r.Valid() && !r.eorStop && r.rtype == old(r.rtype) && r.link.endErrno == old(r.link.endErrno)
    ensures r.isClosed == (u.bytes == [])
    ensures !r.isClosed ==>
              && r.rdNext == r.stopUnget + 1 && r.Unread() == Run(u.bytes[1..], [], u.stop)
              && Drawn(true, 8192, old(r.Place().supply), r.Place().supply)
    ensures r.isClosed ==>
              && r.Tail(r.rdNext) == u.stop.rest && r.stopUnget == old(r.stopUnget)
              && Drawn(true, 8192, old(r.Place().supply), r.Place().supply)
  {
    hide Future, Comes, Passed, EofCode, Drawn, EncodeAll;
    ghost var m := r.Here();
    c := r.GetChar();
    r.AfterSays(m, if c == EOF then [] else [c]);
    if !r.isClosed {
      RestOf(r, m, c, u);
    }
  }

  lemma RestOf(r: Reader, m: InputStream.Mark, c: byte, u: Run)
    requires r.Shape() && !r.isClosed && r.After(m, [c]) && m.run == u && u.replies == []
    ensures u.bytes != [] && r.Unread() == Run(u.bytes[1..], [], u.stop)
  {
    hide Comes;
    assert u.bytes == [c] + r.Unread().bytes;
    assert r.Unread().replies == [];
  }

  /** With an empty buffer, the 24 bytes to come are read at once; 16 of them are left. */
  lemma ReadAtOnce(a: InputStream.Supply, b: InputStream.Supply)
    requires Drawn(true, 8192, a, b) && |a.inbound| == 24 && a.rdNext == a.buffStop
    requires b.rdNext <= b.buffStop && b.buffStop - b.rdNext + |b.inbound| == 16
    ensures b.inbound == [] && b.buffStop == 24 && b.rdNext == 8
  {
  }

  /** Its PARAMS are over; the byte of STDIN is in the buffer, and all of its end but one byte. */
  method AtStdin(x: byte) returns (r: Reader)
    ensures Eager(r) && fresh(r) && fresh(r.link) && fresh(r.buff) && r.Valid() && !r.isClosed && !r.eorStop
    ensures r.rtype == STDIN
    ensures r.rdNext == r.stop == 8 && r.buffStop == 24 && |r.link.inbound| == 1
    ensures r.Unread() == Run([x], [], Eof([]))
  {
    hide Future, EncodeRecord, Comes, Passed, EofCode, EncodeAll, Drawn;
    r := BeginFilter();
    var p, s, e := Plain(PARAMS, 1, [], 0), Plain(STDIN, 1, [x], 0), Plain(STDIN, 1, [], 0);
    ghost var eofCode := EofCode(r.link.endErrno);
    var rest := EncodeRecord(s) + LateEof()[..7];
    r.link.inbound := EarlyBytes(x);
    assert r.Tail(r.rdNext) == EarlyBytes(x);
    r.SetReaderType(PARAMS);
    FinalRecord(StreamContext(PARAMS, 1, eofCode), p, rest);
    Unit(rest);
    ghost var a := r.Place().supply;
    var c := Step(r, Run([], [], Eof(rest)));
    ReadAtOnce(a, r.Place().supply);
    r.link.inbound := LateEof()[7..];
    SplitAt(LateEof(), 7);
    Assoc(EncodeRecord(s), LateEof()[..7], LateEof()[7..]);
    assert r.Tail(r.rdNext) == rest + LateEof()[7..];
    r.SetReaderType(STDIN);
    OneByteStream(StreamContext(STDIN, 1, eofCode), s, e);
  }

  /**
    The byte of STDIN is read, and then its end, with the byte that comes late in a buffer of its
    own.  The pushback limit is still where the byte was, ahead of the reader: two pushbacks at
    the start of DATA go below the buffer.
   */
  method StalePushback(x: byte) returns (below: bool)
    ensures below
  {
    hide Future, EncodeRecord, Comes, Passed, EofCode, EncodeAll;
    var r := AtStdin(x);
    var c := Step(r, Run([x], [], Eof([])));
    HeaderAhead(r);
    assert r.stopUnget >= 7;
    assert [x][1..] == [];
    assert |r.buff[r.rdNext..r.stop]| == 0;
    c := Step(r, Run([], [], Eof([])));
    var rc := r.StartFilterData();
    below := r.UnGetAll([0, 0]);
  }

  lemma OneByteStream(ctx: Context, p: Record, e: Record)
    requires Listening(ctx) && Legal(p) && Mine(ctx, p) && p.content != [] && Final(ctx, e) && e.padding == []
    ensures Future(ctx, 0, 0, false, EncodeRecord(p) + EncodeRecord(e)) == Run(p.content, [], Eof([]))
  {
    hide Future, EncodeRecord;
    PlainStream(ctx, [p]);
    EncodeAllSnoc([], p);
    Unit([p]);
    Unit(EncodeRecord(p));
    Unit(EncodeRecord(e));
    StreamOfRecords(ctx, [p], e, []);
    assert [p][1..] == [];
    Unit(p.content);
  }

  lemma HeaderAhead(r: Reader)
    requires r.Valid() && !r.isClosed && !r.eorStop && r.Unread().stop.Eof?
    ensures |r.Tail(r.stop)| >= HEADER_LEN
  {
    EofNeedsHeader(r.Ctx(), r.contentLen, r.paddingLen, r.skip, r.Tail(r.stop));
  }
}
