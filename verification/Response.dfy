/**
  A request's three streams on their one connection: what any interleaving of calls reads from
  it, and puts on the wire.
 */
module Response {
  import opened Seqs
  import opened Protocol
  import opened Connection
  import opened OutputStream
  import ReaderSpec
  import InputStream

  datatype Which = Out | Err

  /** The calls an application makes on its streams. */
  datatype Op =
    | PutChar(which: Which, c: int)
    | PutStr(which: Which, str: seq<byte>)
    | Flush(which: Which)
    | Close(which: Which)
    | SetExitStatus(status: int)
    | Read(n: int)

  // ---------------------------------------------------------------- what a run of calls means

  predicate Closed(ops: seq<Op>, which: Which) {
    exists i :: 0 <= i < |ops| && ops[i] == Close(which)
  }

  predicate AllClosed(ops: seq<Op>) {
    Closed(ops, Out) && Closed(ops, Err)
  }

  function BytesOf(op: Op, which: Which): seq<byte> {
    match op
    case PutChar(w, c) => if w == which then [c % 256] else []
    case PutStr(w, s) => if w == which then s else []
    case _ => []
  }

  /** The bytes put on a stream before it is closed. */
  function Taken(ops: seq<Op>, which: Which): seq<byte> {
    if ops == [] then []
    else
      var before := ops[..|ops| - 1];
      Taken(before, which) + if Closed(before, which) then [] else BytesOf(ops[|ops| - 1], which)
  }

  /** The exit status in force when the second stream is closed, or so far. */
  function InForce(ops: seq<Op>, status: int): int {
    if ops == [] then status
    else
      var before := ops[..|ops| - 1];
      if ops[|ops| - 1].SetExitStatus? && !AllClosed(before) then ops[|ops| - 1].status
      else InForce(before, status)
  }

  /** How many bytes have been asked for. */
  function Requested(ops: seq<Op>): nat {
    if ops == [] then 0
    else Requested(ops[..|ops| - 1]) + if ops[|ops| - 1].Read? then Max(ops[|ops| - 1].n, 0) else 0
  }

  /**
    More has been asked for than the stream delivers before an answer overruns its array: from
    then on nothing is known of the program.
   */
  predicate Overreads(promise: ReaderSpec.Run, ops: seq<Op>) {
    promise.stop.Overrun? && |promise.bytes| < Requested(ops)
  }

  lemma AfterOp(ops: seq<Op>, op: Op, which: Which, status: int)
    ensures Closed(ops + [op], which) <==> Closed(ops, which) || op == Close(which)
    ensures Taken(ops + [op], which) == Taken(ops, which) + if Closed(ops, which) then [] else BytesOf(op, which)
    ensures InForce(ops + [op], status)
            == if op.SetExitStatus? && !AllClosed(ops) then op.status else InForce(ops, status)
    ensures Requested(ops + [op]) == Requested(ops) + if op.Read? then Max(op.n, 0) else 0
  {
    var after := ops + [op];
    assert after[..|ops|] == ops;
    assert after[|ops|] == op;
    assert forall i :: 0 <= i < |ops| ==> after[i] == ops[i];
  }

  // ---------------------------------------------------------------- what the wire shows

  /** The records of one type, in order. */
  function OfType(rs: seq<Record>, t: byte): (xs: seq<Record>) {
    if rs == [] then []
    else (if rs[0].rtype == t then [rs[0]] else []) + OfType(rs[1..], t)
  }

  lemma {:induction false} OfTypeConcat(a: seq<Record>, b: seq<Record>, t: byte)
    ensures OfType(a + b, t) == OfType(a, t) + OfType(b, t)
  {
    if a == [] {
      Unit(b);
      Unit(OfType(b, t));
    } else {
      assert (a + b)[1..] == a[1..] + b;
      OfTypeConcat(a[1..], b, t);
      Assoc(if a[0].rtype == t then [a[0]] else [], OfType(a[1..], t), OfType(b, t));
    }
  }

  lemma {:induction false} OfOneType(rs: seq<Record>, u: byte, t: byte)
    requires forall i :: 0 <= i < |rs| ==> rs[i].rtype == u
    ensures OfType(rs, t) == if t == u then rs else []
  {
    if rs != [] {
      OfOneType(rs[1..], u, t);
      assert [rs[0]] + rs[1..] == rs;
    }
  }

  /**
    The records of one stream carry `taken`, less what is still waiting.  While it is open they
    are all non-empty, of at most a buffer's size and padded to a multiple of 8 bytes; closing
    it adds one empty record, except on an unused STDERR.
   */
  predicate Carries(mine: seq<Record>, t: byte, id: nat, size: nat, taken: seq<byte>, waiting: seq<byte>,
                    closed: bool) {
    if !closed then
      AllFramed(t, id, size, mine) && Joined(mine) + waiting == taken
    else if t == STDERR && taken == [] then
      mine == []
    else
      && mine != [] && mine[|mine| - 1] == Plain(t, id, [], 0)
      && AllFramed(t, id, size, mine[..|mine| - 1]) && Joined(mine[..|mine| - 1]) == taken
  }

  /** Exactly one END_REQUEST, after everything else, once both streams are closed; none before. */
  predicate Ends(rs: seq<Record>, id: nat, allClosed: bool, status: int) {
    if allClosed then
      && rs != [] && rs[|rs| - 1] == EndRequest(id, status, REQUEST_COMPLETE)
      && OfType(rs[..|rs| - 1], END_REQUEST) == []
    else
      OfType(rs, END_REQUEST) == []
  }

  predicate Ours(id: nat, rs: seq<Record>) {
    forall i :: 0 <= i < |rs| ==>
      Legal(rs[i]) && rs[i].id == id && (rs[i].rtype == STDOUT || rs[i].rtype == STDERR || rs[i].rtype == END_REQUEST)
  }

  // ---------------------------------------------------------------- steps

  lemma FramedIsOurs(t: byte, id: nat, size: nat, rs: seq<Record>, xs: seq<Record>)
    requires Ours(id, rs) && AllFramed(t, id, size, xs) && (t == STDOUT || t == STDERR)
    requires id < 65536 && size <= MAX_LENGTH + 1
    ensures Ours(id, rs + xs)
    ensures forall u: byte :: OfType(rs + xs, u) == OfType(rs, u) + if u == t then xs else []
  {
    forall u: byte
      ensures OfType(rs + xs, u) == OfType(rs, u) + if u == t then xs else []
    {
      OfTypeConcat(rs, xs, u);
      OfOneType(xs, t, u);
    }
  }

  /** More records of an open stream. */
  lemma CarriesMore(mine: seq<Record>, xs: seq<Record>, t: byte, id: nat, size: nat,
                    taken: seq<byte>, waiting: seq<byte>, s: seq<byte>, waiting': seq<byte>)
    requires Carries(mine, t, id, size, taken, waiting, false)
    requires AllFramed(t, id, size, xs) && Joined(xs) + waiting' == waiting + s
    ensures Carries(mine + xs, t, id, size, taken + s, waiting', false)
  {
    JoinedConcat(mine, xs);
    Assoc(Joined(mine), Joined(xs), waiting');
    Assoc(Joined(mine), waiting, s);
  }

  /** The closing of a stream. */
  lemma CarriesClosed(mine: seq<Record>, t: byte, id: nat, size: nat, taken: seq<byte>, waiting: seq<byte>,
                      unused: bool)
    requires Carries(mine, t, id, size, taken, waiting, false)
    requires size % 8 == 0 && HEADER_LEN + |waiting| <= size
    requires unused <==> waiting == [] && mine == []
    ensures var e := if t == STDERR && unused then [] else [Plain(t, id, [], 0)];
            Carries(mine + Frame(t, id, waiting) + e, t, id, size, taken, [], true)
  {
    hide Frame;
    var f := Frame(t, id, waiting);
    FrameIsFramed(t, id, size, waiting);
    JoinedConcat(mine, f);
    Unit(mine + f);
    if unused {
      NothingPut(mine, taken, waiting);
    } else if taken == [] {
      SomethingPut(mine, t, id, size, waiting);
    }
    Seam(mine + f, [Plain(t, id, [], 0)]);
  }

  lemma NothingPut(mine: seq<Record>, taken: seq<byte>, waiting: seq<byte>)
    requires mine == [] && waiting == [] && Joined(mine) + waiting == taken
    ensures taken == []
    ensures forall f: seq<Record> :: mine + f == f
  {
  }

  lemma SomethingPut(mine: seq<Record>, t: byte, id: nat, size: nat, waiting: seq<byte>)
    requires AllFramed(t, id, size, mine) && (mine != [] || waiting != [])
    ensures Joined(mine) + waiting != []
  {
  }

  // ---------------------------------------------------------------- the account of both streams

  /** One writer, as the account needs it. */
  datatype Side = Side(t: byte, size: nat, closed: bool, used: bool, waiting: seq<byte>)

  predicate SideOk(rs: seq<Record>, id: nat, ops: seq<Op>, which: Which, w: Side) {
    var mine := OfType(rs, w.t);
    && w.t == (if which == Out then STDOUT else STDERR)
    && w.size % 8 == 0 && w.size <= MAX_LENGTH + 1 && HEADER_LEN + |w.waiting| <= w.size
    && w.closed == Closed(ops, which)
    && (!w.closed ==> w.used == (mine != []))
    && Carries(mine, w.t, id, w.size, Taken(ops, which), w.waiting, w.closed)
  }

  /** What `rs` shows of the calls `ops`, the two writers being in the states given. */
  predicate Ledger(rs: seq<Record>, id: nat, ops: seq<Op>, status: int, out: Side, err: Side) {
    && id < 65536 && Ours(id, rs)
    && SideOk(rs, id, ops, Out, out) && SideOk(rs, id, ops, Err, err)
    && Ends(rs, id, AllClosed(ops), InForce(ops, status))
  }

  /** A call on one stream that sends the records `xs` of it. */
  lemma SideWrites(rs: seq<Record>, id: nat, ops: seq<Op>, op: Op, which: Which, w: Side, xs: seq<Record>, w': Side,
                   status: int)
    requires SideOk(rs, id, ops, which, w) && !w.closed && Ours(id, rs) && id < 65536
    requires AllFramed(w.t, id, w.size, xs) && Joined(xs) + w'.waiting == w.waiting + BytesOf(op, which)
    requires !op.Close? && HEADER_LEN + |w'.waiting| <= w.size
    requires w' == Side(w.t, w.size, false, w.used || xs != [], w'.waiting)
    ensures SideOk(rs + xs, id, ops + [op], which, w')
  {
    hide Carries, Taken, Closed, Joined, AllFramed;
    AfterOp(ops, op, which, status);
    FramedIsOurs(w.t, id, w.size, rs, xs);
    CarriesMore(OfType(rs, w.t), xs, w.t, id, w.size, Taken(ops, which), w.waiting, BytesOf(op, which), w'.waiting);
  }

  /** The other stream is not touched by it. */
  lemma SideRests(rs: seq<Record>, id: nat, ops: seq<Op>, op: Op, which: Which, w: Side, xs: seq<Record>, status: int)
    requires SideOk(rs, id, ops, which, w) && BytesOf(op, which) == [] && op != Close(which)
    requires OfType(xs, w.t) == []
    ensures SideOk(rs + xs, id, ops + [op], which, w)
  {
    hide Carries, Taken, Closed;
    AfterOp(ops, op, which, status);
    OfTypeConcat(rs, xs, w.t);
    Unit(OfType(rs, w.t));
    Unit(Taken(ops, which));
  }

  /** A closed stream takes in nothing more. */
  lemma SideIgnores(rs: seq<Record>, id: nat, ops: seq<Op>, op: Op, which: Which, w: Side, status: int)
    requires SideOk(rs, id, ops, which, w) && w.closed
    ensures SideOk(rs, id, ops + [op], which, w)
  {
    hide Carries, Taken, Closed;
    AfterOp(ops, op, which, status);
    Unit(Taken(ops, which));
  }

  lemma SideCloses(rs: seq<Record>, id: nat, ops: seq<Op>, which: Which, w: Side, xs: seq<Record>, last: seq<Record>,
                   status: int)
    requires SideOk(rs, id, ops, which, w) && !w.closed && Ours(id, rs) && id < 65536
    requires xs == Frame(w.t, id, w.waiting)
                   + (if w.t == STDERR && w.waiting == [] && !w.used then [] else [Plain(w.t, id, [], 0)])
    requires OfType(last, w.t) == []
    ensures SideOk(rs + (xs + last), id, ops + [Close(which)], which, w.(closed := true, used := false, waiting := []))
  {
    hide Carries, Taken, Closed, Joined, Frame, Ours, EncodeRecord, Zeros;
    var f := Frame(w.t, id, w.waiting);
    var e := if w.t == STDERR && w.waiting == [] && !w.used then [] else [Plain(w.t, id, [], 0)];
    AfterOp(ops, Close(which), which, status);
    Unit(Taken(ops, which));
    FrameIsFramed(w.t, id, w.size, w.waiting);
    OfTypeConcat(rs, xs + last, w.t);
    OfTypeConcat(xs, last, w.t);
    OfOneType(xs, w.t, w.t);
    Unit(xs);
    Assoc(OfType(rs, w.t), f, e);
    CarriesClosed(OfType(rs, w.t), w.t, id, w.size, Taken(ops, which), w.waiting, w.waiting == [] && !w.used);
  }

  function Pick<T>(which: Which, out: T, err: T): T {
    if which == Out then out else err
  }

  function Other(which: Which): Which {
    if which == Out then Err else Out
  }

  lemma LedgerWrites(rs: seq<Record>, id: nat, ops: seq<Op>, op: Op, status: int, out: Side, err: Side,
                     xs: seq<Record>, w': Side)
    requires Ledger(rs, id, ops, status, out, err) && (op.PutChar? || op.PutStr? || op.Flush?)
    requires var w := Pick(op.which, out, err);
             && !w.closed && AllFramed(w.t, id, w.size, xs)
             && Joined(xs) + w'.waiting == w.waiting + BytesOf(op, op.which)
             && HEADER_LEN + |w'.waiting| <= w.size
             && w' == Side(w.t, w.size, false, w.used || xs != [], w'.waiting)
    ensures Ledger(rs + xs, id, ops + [op], status, if op.which == Out then w' else out,
                   if op.which == Err then w' else err)
  {
    hide Carries, SideOk, Closed, Joined, Taken, InForce, AllFramed;
    var w, v := Pick(op.which, out, err), Pick(op.which, err, out);
    SideFacts(rs, id, ops, op.which, w);
    SideFacts(rs, id, ops, Other(op.which), v);
    AfterOp(ops, op, Out, status);
    AfterOp(ops, op, Err, status);
    FramedIsOurs(w.t, id, w.size, rs, xs);
    FramedOther(w.t, id, w.size, xs, v.t);
    SideWrites(rs, id, ops, op, op.which, w, xs, w', status);
    SideRests(rs, id, ops, op, Other(op.which), v, xs, status);
    Unit(OfType(rs, END_REQUEST));
  }

  lemma SideFacts(rs: seq<Record>, id: nat, ops: seq<Op>, which: Which, w: Side)
    requires SideOk(rs, id, ops, which, w)
    ensures w.t == (if which == Out then STDOUT else STDERR) && w.closed == Closed(ops, which)
    ensures w.size <= MAX_LENGTH + 1
  {
  }

  lemma FramedOther(t: byte, id: nat, size: nat, xs: seq<Record>, u: byte)
    requires AllFramed(t, id, size, xs) && u != t
    ensures OfType(xs, u) == []
  {
  }

  /** A call that no longer has an effect. */
  lemma LedgerIgnores(rs: seq<Record>, id: nat, ops: seq<Op>, op: Op, status: int, out: Side, err: Side)
    requires Ledger(rs, id, ops, status, out, err) && !op.SetExitStatus? && !op.Read? && Pick(op.which, out, err).closed
    ensures Ledger(rs, id, ops + [op], status, out, err)
  {
    hide Carries, SideOk, Closed, Taken, InForce;
    var w, v := Pick(op.which, out, err), Pick(op.which, err, out);
    SideFacts(rs, id, ops, op.which, w);
    AfterOp(ops, op, Out, status);
    AfterOp(ops, op, Err, status);
    SideIgnores(rs, id, ops, op, op.which, w, status);
    SideRests(rs, id, ops, op, Other(op.which), v, [], status);
    Unit(rs);
  }

  lemma LedgerStatus(rs: seq<Record>, id: nat, ops: seq<Op>, op: Op, status: int, out: Side, err: Side)
    requires Ledger(rs, id, ops, status, out, err) && (op.SetExitStatus? || op.Read?)
    ensures Ledger(rs, id, ops + [op], status, out, err)
  {
    hide Carries, SideOk, Closed, Taken, InForce;
    AfterOp(ops, op, Out, status);
    AfterOp(ops, op, Err, status);
    SideRests(rs, id, ops, op, Out, out, [], status);
    SideRests(rs, id, ops, op, Err, err, [], status);
    Unit(rs);
  }

  /** The closing of a stream; the second to close brings END_REQUEST. */
  lemma LedgerCloses(rs: seq<Record>, id: nat, ops: seq<Op>, which: Which, status: int, out: Side, err: Side,
                     xs: seq<Record>)
    requires Ledger(rs, id, ops, status, out, err)
    requires var w, v := Pick(which, out, err), Pick(which, err, out);
             && !w.closed
             && xs == Frame(w.t, id, w.waiting)
                      + CloseRecords(w.t, id, w.waiting == [] && !w.used, v.closed, InForce(ops, status))
    ensures var w' := Pick(which, out, err).(closed := true, used := false, waiting := []);
            Ledger(rs + xs, id, ops + [Close(which)], status, if which == Out then w' else out,
                   if which == Err then w' else err)
  {
    hide Carries, SideOk, Closed, Taken, InForce, Joined, Frame, OfType;
    var w, v := Pick(which, out, err), Pick(which, err, out);
    var op := Close(which);
    SideFacts(rs, id, ops, which, w);
    SideFacts(rs, id, ops, Other(which), v);
    AfterOp(ops, op, Out, status);
    AfterOp(ops, op, Err, status);
    var s := InForce(ops, status);
    var f := Frame(w.t, id, w.waiting);
    var e := if w.t == STDERR && w.waiting == [] && !w.used then [] else [Plain(w.t, id, [], 0)];
    var last := if v.closed then [EndRequest(id, s, REQUEST_COMPLETE)] else [];
    Assoc(f, e, last);
    CloseTypes(rs, id, ops, which, w, e, last, v.t, s);
    SideCloses(rs, id, ops, which, w, f + e, last, status);
    SideRests(rs, id, ops, op, Other(which), v, xs, status);
    CloseEnds(rs, id, w, f + e, last, s);
  }

  /** The closing records, sorted by type. */
  lemma CloseTypes(rs: seq<Record>, id: nat, ops: seq<Op>, which: Which, w: Side, e: seq<Record>, last: seq<Record>,
                   u: byte, s: int)
    requires SideOk(rs, id, ops, which, w) && id < 65536 && Ours(id, rs)
    requires u != w.t && (u == STDOUT || u == STDERR)
    requires e == (if w.t == STDERR && w.waiting == [] && !w.used then [] else [Plain(w.t, id, [], 0)])
    requires last == [] || last == [EndRequest(id, s, REQUEST_COMPLETE)]
    ensures var xs := Frame(w.t, id, w.waiting) + e;
            && OfType(last, w.t) == [] && OfType(xs + last, u) == []
            && OfType(xs, END_REQUEST) == []
            && Ours(id, rs + (xs + last))
  {
    hide Frame, Carries, EndRequestBody, Legal, Ours, Zeros;
    var xs := Frame(w.t, id, w.waiting) + e;
    OursToo(id, rs, Frame(w.t, id, w.waiting), e, last);
    FrameIsOurs(w.t, id, w.size, w.waiting);
    CloseIsOurs(w.t, id, s);
    FrameIsFramed(w.t, id, w.size, w.waiting);
    OfOneType(xs, w.t, u);
    OfOneType(xs, w.t, END_REQUEST);
    OfOneType(last, END_REQUEST, w.t);
    OfOneType(last, END_REQUEST, u);
    OfTypeConcat(xs, last, u);
  }

  lemma FrameIsOurs(t: byte, id: nat, size: nat, waiting: seq<byte>)
    requires id < 65536 && size % 8 == 0 && size <= MAX_LENGTH + 1 && HEADER_LEN + |waiting| <= size
    requires t == STDOUT || t == STDERR
    ensures Ours(id, Frame(t, id, waiting))
  {
  }

  lemma CloseIsOurs(t: byte, id: nat, s: int)
    requires id < 65536 && (t == STDOUT || t == STDERR)
    ensures Ours(id, []) && Ours(id, [Plain(t, id, [], 0)]) && Ours(id, [EndRequest(id, s, REQUEST_COMPLETE)])
  {
  }

  lemma OursToo(id: nat, rs: seq<Record>, f: seq<Record>, e: seq<Record>, last: seq<Record>)
    requires Ours(id, rs)
    ensures Ours(id, f) && Ours(id, e) && Ours(id, last) ==> Ours(id, rs + (f + e + last))
  {
  }

  lemma CloseEnds(rs: seq<Record>, id: nat, w: Side, xs: seq<Record>, last: seq<Record>, s: int)
    requires OfType(rs, END_REQUEST) == [] && OfType(xs, END_REQUEST) == []
    requires last == [] || last == [EndRequest(id, s, REQUEST_COMPLETE)]
    ensures Ends(rs + (xs + last), id, last != [], s)
  {
    hide EndRequestBody;
    OfTypeConcat(rs, xs, END_REQUEST);
    Assoc(rs, xs, last);
    Unit(rs + xs);
    Seam(rs + xs, last);
  }

  // ---------------------------------------------------------------- complete responses

  /** Non-empty records, then one empty one. */
  predicate Terminated(mine: seq<Record>) {
    && mine != [] && mine[|mine| - 1].content == []
    && forall i :: 0 <= i < |mine| - 1 ==> mine[i].content != []
  }

  /**
    The records of one whole response: each stream carries its bytes and ends with its one
    empty record, an unused STDERR sends nothing, and a single END_REQUEST comes last.
   */
  predicate CompleteResponse(rs: seq<Record>, id: nat, outBytes: seq<byte>, errBytes: seq<byte>, status: int) {
    && Ours(id, rs)
    && Joined(OfType(rs, STDOUT)) == outBytes && Terminated(OfType(rs, STDOUT))
    && Joined(OfType(rs, STDERR)) == errBytes
    && (if errBytes == [] then OfType(rs, STDERR) == [] else Terminated(OfType(rs, STDERR)))
    && Ends(rs, id, true, status)
  }

  /** The shortest response: when nothing has been put on either stream, closing both leaves two records. */
  lemma NothingPutAtAll(rs: seq<Record>, id: nat, ops: seq<Op>, status: int, out: Side, err: Side)
    requires Ledger(rs, id, ops, status, out, err) && AllClosed(ops)
    requires Taken(ops, Out) == [] && Taken(ops, Err) == []
    ensures EncodeAll(rs)
            == [1, 6, id / 256, id % 256, 0, 0, 0, 0] + EncodeRecord(EndRequest(id, InForce(ops, status), 0))
  {
    hide EncodeRecord, EndRequest, Taken, InForce, Ours, OfType;
    var o, e := Plain(STDOUT, id, [], 0), EndRequest(id, InForce(ops, status), 0);
    NoneFramed(STDOUT, id, out.size, OfType(rs, STDOUT));
    TwoRecords(rs, id, o, InForce(ops, status));
    EmptyRecordBytes(STDOUT, id);
    EncodeAllSnoc([o], e);
    EncodeAllCons(o, []);
    NoBytes();
    assert [o] + [] == [o] && EncodeRecord(o) + [] == EncodeRecord(o);
  }

  lemma TwoRecords(rs: seq<Record>, id: nat, o: Record, status: int)
    requires Ours(id, rs) && OfType(rs, STDOUT) == [o] && OfType(rs, STDERR) == []
    requires rs != [] && rs[|rs| - 1] == EndRequest(id, status, REQUEST_COMPLETE)
    requires OfType(rs[..|rs| - 1], END_REQUEST) == []
    ensures rs == [o] + [EndRequest(id, status, REQUEST_COMPLETE)]
  {
    hide EndRequest, OfType;
    var body, e := rs[..|rs| - 1], rs[|rs| - 1];
    assert rs == body + [e];
    OfTypeConcat(body, [e], STDOUT);
    OfTypeConcat(body, [e], STDERR);
    OfEnd(e, id, status);
    Unit(OfType(body, STDOUT));
    Unit(OfType(body, STDERR));
    OnlyOneType(body);
  }

  lemma NoBytes()
    ensures EncodeAll([]) == []
  {
  }

  lemma OfEnd(e: Record, id: nat, status: int)
    requires e == EndRequest(id, status, REQUEST_COMPLETE)
    ensures OfType([e], STDOUT) == [] && OfType([e], STDERR) == []
  {
    OfOneType([e], END_REQUEST, STDOUT);
    OfOneType([e], END_REQUEST, STDERR);
  }

  lemma NoneFramed(t: byte, id: nat, size: nat, rs: seq<Record>)
    requires rs != [] && AllFramed(t, id, size, rs[..|rs| - 1]) && Joined(rs[..|rs| - 1]) == []
    ensures rs == [rs[|rs| - 1]]
  {
  }

  lemma {:induction false} OnlyOneType(rs: seq<Record>)
    requires forall i :: 0 <= i < |rs| ==> rs[i].rtype == STDOUT || rs[i].rtype == STDERR || rs[i].rtype == END_REQUEST
    requires OfType(rs, STDERR) == [] && OfType(rs, END_REQUEST) == []
    ensures OfType(rs, STDOUT) == rs
  {
    if rs != [] {
      OnlyOneType(rs[1..]);
      assert rs == [rs[0]] + rs[1..];
    }
  }

  lemma CarriesToTheEnd(mine: seq<Record>, t: byte, id: nat, size: nat, taken: seq<byte>)
    requires Carries(mine, t, id, size, taken, [], true)
    ensures Joined(mine) == taken
    ensures if t == STDERR && taken == [] then mine == [] else Terminated(mine)
  {
    if mine != [] {
      var k := |mine| - 1;
      SplitAt(mine, k);
      assert mine[k..] == [mine[k]];
      JoinedConcat(mine[..k], [mine[k]]);
      assert [mine[k]][1..] == [];
      Unit(Joined(mine[..k]));
      assert forall i :: 0 <= i < k ==> mine[i] == mine[..k][i];
    }
  }

  lemma LedgerCompletes(rs: seq<Record>, id: nat, ops: seq<Op>, status: int, out: Side, err: Side)
    requires Ledger(rs, id, ops, status, out, err) && AllClosed(ops)
    requires out.waiting == [] && err.waiting == []
    ensures CompleteResponse(rs, id, Taken(ops, Out), Taken(ops, Err), InForce(ops, status))
  {
    hide Carries, Taken, InForce, Ends;
    CarriesToTheEnd(OfType(rs, STDOUT), STDOUT, id, out.size, Taken(ops, Out));
    CarriesToTheEnd(OfType(rs, STDERR), STDERR, id, err.size, Taken(ops, Err));
  }

  /** Closing both streams, err first, whichever of them are still open. */
  lemma LedgerFinishes(rs: seq<Record>, id: nat, ops: seq<Op>, status: int, out: Side, err: Side, es: seq<Record>,
                       os: seq<Record>)
    requires Ledger(rs, id, ops, status, out, err)
    requires out.closed ==> out.waiting == []
    requires err.closed ==> err.waiting == []
    requires es == CloseOf(err, id, out.closed, InForce(ops, status))
    requires os == CloseOf(out, id, true, InForce(ops, status))
    ensures CompleteResponse(rs + (es + os), id, Taken(ops, Out), Taken(ops, Err), InForce(ops, status))
  {
    hide Ledger, InForce, Closed, Taken, Requested, Frame, CloseRecords, CompleteResponse;
    var ops1 := ops + [Close(Err)];
    var ops2 := ops1 + [Close(Out)];
    AfterOp(ops, Close(Err), Out, status);
    AfterOp(ops, Close(Err), Err, status);
    AfterOp(ops1, Close(Out), Out, status);
    AfterOp(ops1, Close(Out), Err, status);
    LedgerSides(rs, id, ops, status, out, err);
    var err' := if err.closed then err else err.(closed := true, used := false, waiting := []);
    var out' := if out.closed then out else out.(closed := true, used := false, waiting := []);
    LedgerCloseOf(rs, id, ops, Err, status, out, err, es);
    LedgerCloseOf(rs + es, id, ops1, Out, status, out, err', os);
    Assoc(rs, es, os);
    LedgerCompletes(rs + es + os, id, ops2, status, out', err');
    Unit(Taken(ops, Out));
    Unit(Taken(ops, Err));
  }

  /** What closing a stream adds: nothing if it is closed. */
  function CloseOf(w: Side, id: nat, last: bool, status: int): seq<Record> {
    if w.closed then [] else Frame(w.t, id, w.waiting) + CloseRecords(w.t, id, w.waiting == [] && !w.used, last, status)
  }

  lemma LedgerCloseOf(rs: seq<Record>, id: nat, ops: seq<Op>, which: Which, status: int, out: Side, err: Side,
                      xs: seq<Record>)
    requires Ledger(rs, id, ops, status, out, err)
    requires xs == CloseOf(Pick(which, out, err), id, Pick(which, err, out).closed, InForce(ops, status))
    ensures var w := Pick(which, out, err);
            var w' := if w.closed then w else w.(closed := true, used := false, waiting := []);
            Ledger(rs + xs, id, ops + [Close(which)], status, if which == Out then w' else out,
                   if which == Err then w' else err)
  {
    hide Ledger, Frame, CloseRecords, InForce;
    if Pick(which, out, err).closed {
      LedgerIgnores(rs, id, ops, Close(which), status, out, err);
      Unit(rs);
    } else {
      LedgerCloses(rs, id, ops, which, status, out, err, xs);
    }
  }

  lemma LedgerSides(rs: seq<Record>, id: nat, ops: seq<Op>, status: int, out: Side, err: Side)
    requires Ledger(rs, id, ops, status, out, err)
    ensures out.closed == Closed(ops, Out) && err.closed == Closed(ops, Err)
  {
  }

  // ---------------------------------------------------------------- two orders woven together

  /** `all` is made of `a` and `b`, each in its own order. */
  predicate Woven<T(==)>(all: seq<T>, a: seq<T>, b: seq<T>) {
    if all == [] then a == [] && b == []
    else
      var last, before := all[|all| - 1], all[..|all| - 1];
      || (a != [] && a[|a| - 1] == last && Woven(before, a[..|a| - 1], b))
      || (b != [] && b[|b| - 1] == last && Woven(before, a, b[..|b| - 1]))
  }

  lemma {:induction false} WovenMore<T>(all: seq<T>, a: seq<T>, b: seq<T>, xs: seq<T>)
    requires Woven(all, a, b)
    ensures Woven(all + xs, a + xs, b) && Woven(all + xs, a, b + xs)
    decreases |xs|
  {
    if xs == [] {
      Unit(all);
      Unit(a);
      Unit(b);
    } else {
      var ys, x := xs[..|xs| - 1], xs[|xs| - 1];
      WovenMore(all, a, b, ys);
      assert (all + xs)[..|all + xs| - 1] == all + ys;
      assert (a + xs)[..|a + xs| - 1] == a + ys;
      assert (b + xs)[..|b + xs| - 1] == b + ys;
    }
  }

  /** Where there is nothing of the one, all is of the other. */
  lemma {:induction false} WovenAlone<T>(all: seq<T>, a: seq<T>)
    requires Woven(all, a, [])
    ensures all == a
    decreases |all|
  {
    if all != [] {
      WovenAlone(all[..|all| - 1], a[..|a| - 1]);
      assert all == all[..|all| - 1] + [all[|all| - 1]];
    }
  }

  lemma {:induction false} WovenLegal(all: seq<Record>, a: seq<Record>, b: seq<Record>)
    requires Woven(all, a, b) && AllLegal(a) && AllLegal(b)
    ensures AllLegal(all)
    decreases |all|
  {
    if all != [] {
      var last, before := all[|all| - 1], all[..|all| - 1];
      if a != [] && a[|a| - 1] == last && Woven(before, a[..|a| - 1], b) {
        WovenLegal(before, a[..|a| - 1], b);
      } else {
        WovenLegal(before, a, b[..|b| - 1]);
      }
      assert forall i :: 0 <= i < |before| ==> all[i] == before[i];
    }
  }

  // ---------------------------------------------------------------- the streams

  /** One of the three calls that may put bytes on a stream. */
  method Call(w: Writer, op: Op) returns (r: int)
    requires w.Valid() && (op.PutChar? || op.PutStr? || op.Flush?)
    modifies w, w.buff, w.link`outbound, w.link`writeFailed, w.link`stalls, w.link`sent, w.link`nWriters
    ensures w.Valid() && w.Kept()
    ensures w.wasFCloseCalled ==> w.link.sent == old(w.link.sent)
    ensures !w.wasFCloseCalled && !w.link.writeFailed ==>
              && w.Put(old(w.Here()), BytesOf(op, op.which))
              && w.isAnythingWritten == (old(w.isAnythingWritten) || w.link.sent != old(w.link.sent))
  {
    hide Frame, Between, Writer.Waiting, EncodeAll;
    if op.PutChar? {
      r := w.PutChar(op.c);
    } else if op.PutStr? {
      r := w.PutStr(op.str);
    } else {
      r := w.FFlush();
    }
  }

  /** The same; `xs` are the records it sends. */
  method Apply(w: Writer, op: Op) returns (r: int, ghost xs: seq<Record>)
    requires w.Valid() && (op.PutChar? || op.PutStr? || op.Flush?)
    modifies w, w.buff, w.link`outbound, w.link`writeFailed, w.link`stalls, w.link`sent, w.link`nWriters
    ensures w.Valid() && w.Kept()
    ensures w.wasFCloseCalled ==> w.link.sent == old(w.link.sent) && xs == []
    ensures !w.wasFCloseCalled && !w.link.writeFailed ==>
              && w.link.sent == old(w.link.sent) + xs && AllFramed(w.wtype, w.Id(), w.buff.Length, xs)
              && Joined(xs) + w.Waiting() == old(w.Waiting()) + BytesOf(op, op.which)
              && w.isAnythingWritten == (old(w.isAnythingWritten) || xs != [])
  {
    hide Frame, AllFramed, Joined, EncodeAll, Writer.Waiting, BytesOf;
    ghost var sent := w.link.sent;
    r := Call(w, op);
    xs := [];
    if !w.wasFCloseCalled && !w.link.writeFailed {
      xs := w.link.sent[|sent|..];
      SuffixOf(sent, w.link.sent);
      Unit(sent);
    }
  }

  class Streams {
    const link: Link
    const out: Writer
    const err: Writer
    const input: InputStream.Reader

    /** The calls made so far; the records sent before them, and the exit status and error before them. */
    ghost var history: seq<Op>
    ghost const base: seq<Record>
    ghost const status0: int
    ghost const errno0: int
    ghost const id0: int

    /** What the input stream held to begin with, and what has been read of it. */
    ghost const promise: ReaderSpec.Run
    ghost var got: seq<byte>

    /** The records sent since: the writers' own, and the reader's answers. */
    ghost var mine: seq<Record>
    ghost var answers: seq<Record>

    /** The records sent since the streams were made. */
    ghost function Since(): seq<Record>
      reads this, link
    {
      if base <= link.sent then link.sent[|base|..] else []
    }

    ghost function SideOf(w: Writer): (s: Side)
      requires w.wasFCloseCalled || w.Bounds()
      reads w, w.buff
      ensures s.closed == w.wasFCloseCalled && s.t == w.wtype && s.size == w.buff.Length
      ensures if s.closed then !s.used && s.waiting == [] else s.used == w.isAnythingWritten && s.waiting == w.Waiting()
    {
      Side(w.wtype, w.buff.Length, w.wasFCloseCalled, !w.wasFCloseCalled && w.isAnythingWritten,
           if w.wasFCloseCalled then [] else w.Waiting())
    }

    ghost predicate Apart()
    {
      && out.link == link && err.link == link && input.link == link
      && out != err && out.buff != err.buff && input.buff != out.buff && input.buff != err.buff
      && out.wtype == STDOUT && err.wtype == STDERR
    }

    ghost predicate Valid()
      reads this, link, out, err, out.buff, err.buff, input, input.buff
    {
      && Apart() && out.Valid() && err.Valid()
      && input.Valid() && !input.eorStop && link.isBeginProcessed && link.requestId == id0
      && out.wasFCloseCalled == Closed(history, Out) && err.wasFCloseCalled == Closed(history, Err)
      && link.nWriters == (if out.wasFCloseCalled then 0 else 1) + (if err.wasFCloseCalled then 0 else 1)
      && (!AllClosed(history) ==> link.appStatus == InForce(history, status0))
      && |got| <= Requested(history) && (input.isClosed <==> |got| < Requested(history))
      && (!link.writeFailed && !Overreads(promise, history) ==> Told())
    }

    /** The account of all three streams. */
    ghost predicate Told()
      requires Apart() && out.Valid() && err.Valid() && input.Valid()
      reads this, link, out, err, out.buff, err.buff, input, input.buff
    {
      && base <= link.sent && Woven(Since(), mine, answers)
      && Ledger(mine, out.Id(), history, status0, SideOf(out), SideOf(err))
      && Reads()
    }

    /** What was promised is what has been read and answered, and what is still to come. */
    ghost predicate Reads()
      requires input.Valid()
      reads this, input, input.link, input.buff
    {
      if input.isClosed then promise.bytes == got && promise.replies == answers && input.Ended(promise, errno0)
      else promise == ReaderSpec.Replies(answers, ReaderSpec.Emit(got, input.Unread())) && input.errno == errno0
    }

    /** The streams that FCGX_Accept_r has made. */
    constructor (out: Writer, err: Writer, input: InputStream.Reader)
      requires out.link == err.link == input.link && out != err
      requires out.buff != err.buff && input.buff != out.buff && input.buff != err.buff
      requires out.wtype == STDOUT && err.wtype == STDERR && out.Unused() && err.Unused() && out.link.nWriters == 2
      requires input.Valid() && !input.isClosed && !input.eorStop && input.link.isBeginProcessed
      ensures Valid() && this.out == out && this.err == err && this.input == input && link == out.link
      ensures history == [] && base == link.sent && status0 == link.appStatus && promise == input.Unread()
      ensures errno0 == input.errno
      ensures id0 == link.requestId
      ensures answers == [] && got == []
    {
      link, this.out, this.err, this.input := out.link, out, err, input;
      history, base, status0, errno0, id0 := [], out.link.sent, out.link.appStatus, input.errno, out.link.requestId;
      promise, got, mine, answers := input.Unread(), [], [], [];
      new;
      assert link.sent[|base|..] == [];
      ReaderSpec.EmitNothing(input.Unread());
      ReaderSpec.RepliesNothing(input.Unread());
    }

    /** Calls on the writers leave what the reader has to say untouched. */
    twostate lemma Undisturbed()
      requires old(input.Valid()) && input.Valid() && unchanged(input) && unchanged(input.buff) && old(Reads())
      requires old(allocated(input)) && old(allocated(input.buff)) && old(allocated(input.link))
      requires got == old(got) && answers == old(answers)
      requires input.link.inbound == old(input.link.inbound) && input.link.endErrno == old(input.link.endErrno)
      requires input.link.requestId == old(input.link.requestId)
      requires input.link.isBeginProcessed == old(input.link.isBeginProcessed)
      ensures Reads()
    {
      hide ReaderSpec.Comes, ReaderSpec.Emit, ReaderSpec.Replies;
      assert input.buff[..] == old(input.buff[..]);
      assert input.isClosed ==> input.Tail(input.rdNext) == old(input.Tail(input.rdNext));
      assert !input.isClosed ==> input.Tail(input.stop) == old(input.Tail(input.stop));
    }

    /** The account after a call on the writer `w` that sent `xs`, the other writer being as it was. */
    lemma Accounted(op: Op, w: Writer, rs: seq<Record>, xs: seq<Record>, sideOut: Side, sideErr: Side)
      requires op.PutChar? || op.PutStr? || op.Flush?
      requires w == Pick(op.which, out, err) && w.Valid()
      requires Ledger(rs, w.Id(), history, status0, sideOut, sideErr)
      requires var s := Pick(op.which, sideOut, sideErr);
               && s.closed == w.wasFCloseCalled && s.t == w.wtype && s.size == w.buff.Length
               && if s.closed then xs == []
                  else
                    && AllFramed(s.t, w.Id(), s.size, xs)
                    && Joined(xs) + w.Waiting() == s.waiting + BytesOf(op, op.which)
                    && w.isAnythingWritten == (s.used || xs != [])
      ensures var s := Pick(op.which, sideOut, sideErr);
              var s' := if s.closed then s else SideOf(w);
              Ledger(rs + xs, w.Id(), history + [op], status0, if op.which == Out then s' else sideOut,
                     if op.which == Err then s' else sideErr)
    {
      hide Ledger, AllFramed, Joined;
      if w.wasFCloseCalled {
        LedgerIgnores(rs, w.Id(), history, op, status0, sideOut, sideErr);
        Unit(rs);
      } else {
        LedgerWrites(rs, w.Id(), history, op, status0, sideOut, sideErr, xs, SideOf(w));
      }
    }

    /** What has been sent since, more having been sent. */
    lemma SinceThen(sent: seq<Record>, xs: seq<Record>)
      requires base <= sent && link.sent == sent + xs
      ensures base <= link.sent && Since() == sent[|base|..] + xs
    {
      Seam(sent, xs);
      SuffixJoin(base, sent, link.sent);
    }

    /** A call that has sent `xs` is entered in the account. */
    method Note(ghost op: Op, ghost xs: seq<Record>, ghost since: seq<Record>)
      requires Apart() && out.Valid() && err.Valid()
      requires input.Valid() && !input.eorStop && link.isBeginProcessed && link.requestId == id0
      requires out.wasFCloseCalled == Closed(history + [op], Out) && err.wasFCloseCalled == Closed(history + [op], Err)
      requires link.nWriters == (if out.wasFCloseCalled then 0 else 1) + (if err.wasFCloseCalled then 0 else 1)
      requires !AllClosed(history + [op]) ==> link.appStatus == InForce(history + [op], status0)
      requires |got| <= Requested(history + [op]) && (input.isClosed <==> |got| < Requested(history + [op]))
      requires !link.writeFailed && !Overreads(promise, history) ==>
                 && base <= link.sent && Since() == since + xs && Woven(since, mine, answers) && Reads()
                 && Ledger(mine + xs, out.Id(), history + [op], status0, SideOf(out), SideOf(err))
      modifies this`history, this`mine
      ensures Valid() && history == old(history) + [op]
    {
      hide Ledger, InForce, Closed, SideOf, Taken, Requested, EncodeAll, Writer.Waiting, Writer.Valid, Woven, Reads;
      AfterOp(history, op, Out, status0);
      if !link.writeFailed && !Overreads(promise, history) {
        WovenMore(since, mine, answers, xs);
      }
      history, mine := history + [op], mine + xs;
      if !link.writeFailed && !Overreads(promise, history) {
        Undisturbed();
      }
    }

    /** One of those calls on the writer `w`, with the account of both writers. */
    method Through(w: Writer, v: Writer, op: Op) returns (r: int, ghost xs: seq<Record>)
      requires Apart() && w.Valid() && v.Valid() && (op.PutChar? || op.PutStr? || op.Flush?)
      requires w == Pick(op.which, out, err) && v == Pick(op.which, err, out)
      requires !link.writeFailed && !Overreads(promise, history) ==>
                 Ledger(mine, out.Id(), history, status0, SideOf(out), SideOf(err))
      modifies w, w.buff, link`outbound, link`writeFailed, link`stalls, link`sent, link`nWriters
      ensures link.Synced() && out.Valid() && err.Valid() && (old(link.writeFailed) ==> link.writeFailed)
      ensures link.nWriters == old(link.nWriters)
      ensures out.wasFCloseCalled == old(out.wasFCloseCalled) && err.wasFCloseCalled == old(err.wasFCloseCalled)
      ensures !link.writeFailed && !Overreads(promise, history) ==>
                && link.sent == old(link.sent) + xs
                && Ledger(mine + xs, out.Id(), history + [op], status0, SideOf(out), SideOf(err))
    {
      hide Ledger, SideOf, EncodeAll, AllFramed, Joined, BytesOf, Writer.Waiting;
      ghost var sideOut, sideErr := SideOf(out), SideOf(err);
      Unit(link.sent);
      r, xs := Apply(w, op);
      assert SideOf(v) == Pick(op.which, sideErr, sideOut);
      if !link.writeFailed && !Overreads(promise, history) {
        Accounted(op, w, mine, xs, sideOut, sideErr);
      }
      assert out.Valid() && err.Valid() by {
        assert op.which == Out || op.which == Err;
      }
    }

    /** PutChar, PutStr and FFlush on either stream. */
    method Write(op: Op) returns (r: int)
      requires Valid() && (op.PutChar? || op.PutStr? || op.Flush?)
      modifies this`history, this`mine, link, out, err, out.buff, err.buff
      ensures Valid() && history == old(history) + [op]
    {
      hide Ledger, InForce, Closed, SideOf, Taken, Requested, EncodeAll, Writer.Waiting, Writer.Valid, Woven, Reads;
      ghost var sent, since, xs := link.sent, Since(), [];
      AfterOp(history, op, Out, status0);
      AfterOp(history, op, Err, status0);
      r, xs := Through(Pick(op.which, out, err), Pick(op.which, err, out), op);
      if !link.writeFailed && !Overreads(promise, history) {
        SinceThen(sent, xs);
        Undisturbed();
      }
      Note(op, xs, since);
    }

    /** FCGX_FClose on the writer `w`, with the account of both writers. */
    method Shutting(w: Writer, v: Writer, which: Which) returns (rc: int, ghost xs: seq<Record>)
      requires Apart() && w.Valid() && v.Valid() && w == Pick(which, out, err) && v == Pick(which, err, out)
      requires link.nWriters == (if w.wasFCloseCalled then 0 else 1) + (if v.wasFCloseCalled then 0 else 1)
      requires !(w.wasFCloseCalled && v.wasFCloseCalled) ==> link.appStatus == InForce(history, status0)
      requires !link.writeFailed && !Overreads(promise, history) ==>
                 Ledger(mine, out.Id(), history, status0, SideOf(out), SideOf(err))
      modifies w, w.buff, link`outbound, link`writeFailed, link`stalls, link`sent, link`nWriters
      ensures link.Synced() && out.Valid() && err.Valid() && (old(link.writeFailed) ==> link.writeFailed)
      ensures w.wasFCloseCalled && v.wasFCloseCalled == old(v.wasFCloseCalled)
      ensures link.nWriters == if v.wasFCloseCalled then 0 else 1
      ensures !link.writeFailed && !Overreads(promise, history) ==>
                && link.sent == old(link.sent) + xs
                && Ledger(mine + xs, out.Id(), history + [Close(which)], status0, SideOf(out), SideOf(err))
    {
      hide Ledger, SideOf, EncodeAll, InForce, Frame, CloseRecords, Between, Writer.Waiting;
      ghost var sideOut, sideErr := SideOf(out), SideOf(err);
      xs := w.Closing(link.nWriters == 1);
      rc := w.FClose();
      assert SideOf(v) == Pick(which, sideErr, sideOut);
      if !link.writeFailed && !Overreads(promise, history) {
        LedgerCloseOf(mine, out.Id(), history, which, status0, sideOut, sideErr, xs);
      }
      assert out.Valid() && err.Valid() by {
        assert which == Out || which == Err;
      }
    }

    /** FCGX_FClose on either stream, however often. */
    method CloseStream(which: Which) returns (rc: int)
      requires Valid()
      modifies this`history, this`mine, link, out, err, out.buff, err.buff
      ensures Valid() && history == old(history) + [Close(which)]
    {
      hide Ledger, InForce, Closed, SideOf, Taken, Requested, EncodeAll, Writer.Waiting, Writer.Valid, Woven, Reads;
      ghost var op, sent, since, xs := Close(which), link.sent, Since(), [];
      AfterOp(history, op, Out, status0);
      AfterOp(history, op, Err, status0);
      rc, xs := Shutting(Pick(which, out, err), Pick(which, err, out), which);
      if !link.writeFailed && !Overreads(promise, history) {
        SinceThen(sent, xs);
        Undisturbed();
      }
      Note(op, xs, since);
    }

    /** FCGX_SetExitStatus. */
    method SetStatus(status: int)
      requires Valid()
      modifies this`history, link`appStatus
      ensures Valid() && history == old(history) + [Op.SetExitStatus(status)]
    {
      hide Ledger, InForce, Closed, Frame, SideOf, Taken, Requested, EncodeAll, Woven, Reads;
      ghost var op := Op.SetExitStatus(status);
      AfterOp(history, op, Out, status0);
      AfterOp(history, op, Err, status0);
      if !link.writeFailed && !Overreads(promise, history) {
        LedgerStatus(mine, out.Id(), history, op, status0, SideOf(out), SideOf(err));
      }
      link.appStatus := status;
      history := history + [op];
      if !link.writeFailed && !Overreads(promise, history) {
        Undisturbed();
      }
    }

    /** The reader's account after one more read: `s` handed over, `q` answered. */
    lemma ReadMore(u: ReaderSpec.Run, sent: seq<Record>, tail: seq<byte>, s: seq<byte>, q: seq<Record>)
      requires input.Valid() && input.link == link && !input.eorStop && sent <= link.sent && q == link.sent[|sent|..]
      requires promise == ReaderSpec.Replies(answers, ReaderSpec.Emit(got, u))
      requires input.After(InputStream.Mark(u, sent, tail, errno0), s)
      ensures if input.isClosed then
                && promise.bytes == got + s && promise.replies == answers + q
                && input.Ended(promise, errno0)
              else
                && promise == ReaderSpec.Replies(answers + q, ReaderSpec.Emit(got + s, input.Unread()))
                && input.errno == errno0
    {
      hide ReaderSpec.Comes, ReaderSpec.Emit, ReaderSpec.Replies;
      if !input.isClosed {
        ReaderSpec.ThenRead(answers, got, q, s, input.Unread());
      } else {
        ClosedRun(answers, got, u);
      }
    }

    lemma ClosedRun(q: seq<Record>, s: seq<byte>, u: ReaderSpec.Run)
      ensures ReaderSpec.Replies(q, ReaderSpec.Emit(s, u)) == ReaderSpec.Run(s + u.bytes, q + u.replies, u.stop)
    {
    }

    /** The read itself, with the account of what is read and answered. */
    method Pull(n: int, ghost sound: bool) returns (s: seq<byte>)
      requires Apart() && input.Valid() && !input.eorStop && link.isBeginProcessed
      requires !link.writeFailed && sound ==> base <= link.sent && Woven(Since(), mine, answers) && Reads()
      modifies this`got, this`answers, link, input, input.buff
      ensures input.Valid() && input.Kept() && input.KeptRequest() && got == old(got) + s && |s| <= Max(n, 0)
      ensures input.isClosed == (old(input.isClosed) || |s| < n)
      ensures !link.writeFailed && sound ==> base <= link.sent && Woven(Since(), mine, answers) && Reads()
    {
      hide EncodeAll, Woven, ReaderSpec.Comes, ReaderSpec.Emit, ReaderSpec.Replies, InputStream.Passed,
           InputStream.Reader.Ended;
      ghost var sent, since, wasClosed := link.sent, Since(), input.isClosed;
      ghost var m := if wasClosed then InputStream.Mark(promise, [], [], 0) else input.Here();
      s := input.GetStr(n);
      ghost var q := if sent <= link.sent then link.sent[|sent|..] else [];
      if !link.writeFailed && sound {
        if !wasClosed {
          ReadMore(m.run, sent, m.tail, s, q);
        } else {
          NoMoreRead();
        }
        SuffixOf(sent, link.sent);
        SinceThen(sent, q);
        WovenMore(since, mine, answers, q);
      }
      got, answers := got + s, answers + q;
      if !link.writeFailed && sound && wasClosed {
        Undisturbed();
      }
    }

    /** FCGX_GetStr on the input stream. */
    method ReadInput(n: int) returns (s: seq<byte>)
      requires Valid()
      modifies this`history, this`mine, this`got, this`answers, link, input, input.buff
      ensures Valid() && history == old(history) + [Op.Read(n)] && got == old(got) + s
    {
      hide Ledger, InForce, Closed, SideOf, Taken, Requested, EncodeAll, Woven, Reads;
      ghost var op := Op.Read(n);
      ghost var sideOut, sideErr := SideOf(out), SideOf(err);
      AfterOp(history, op, Out, status0);
      AfterOp(history, op, Err, status0);
      s := Pull(n, !Overreads(promise, history));
      assert SideOf(out) == sideOut && SideOf(err) == sideErr;
      if !link.writeFailed && !Overreads(promise, history) {
        LedgerStatus(mine, out.Id(), history, op, status0, sideOut, sideErr);
        Unit(Since());
        Unit(mine);
      }
      Note(op, [], Since());
    }

    lemma NoMoreRead()
      ensures link.sent[|link.sent|..] == [] && answers + [] == answers && got + [] == got
    {
    }

    /** What the reader has answered is part of what it had promised to. */
    lemma AnswersAreLegal()
      requires Valid() && !link.writeFailed && !Overreads(promise, history) && AllLegal(promise.replies)
      ensures AllLegal(answers) && answers <= promise.replies && got <= promise.bytes
      ensures got == promise.bytes[..Min(Requested(history), |promise.bytes|)]
    {
      hide ReaderSpec.Comes, Ledger, SideOf, Requested;
      assert answers <= promise.replies;
      assert forall i :: 0 <= i < |answers| ==> answers[i] == promise.replies[i];
    }

    /** Once both streams are closed, the wire is a complete response woven with the reader's answers. */
    lemma WireWhenClosed()
      requires Valid() && !link.writeFailed && !Overreads(promise, history) && AllClosed(history)
      requires AllLegal(promise.replies)
      ensures CompleteResponse(mine, out.Id(), Taken(history, Out), Taken(history, Err), InForce(history, status0))
      ensures Woven(Since(), mine, answers) && (AllLegal(base) ==> ParseAll(link.outbound) == Whole(base + Since()))
    {
      hide InForce, Closed, Taken, EncodeAll, Carries, Ends, Reads, Requested, Woven;
      LedgerCompletes(mine, out.Id(), history, status0, SideOf(out), SideOf(err));
      AnswersAreLegal();
      WovenLegal(Since(), mine, answers);
      SuffixOf(base, link.sent);
      if AllLegal(base) {
        ParseInvertsEncode(link.sent);
      }
    }

    /** What FCGX_Finish_r makes of the wire, whichever streams are still open. */
    lemma WhenFinished(sent: seq<Record>)
      requires Valid() && !link.writeFailed && !Overreads(promise, history)
      requires sent == link.sent + err.Closing(link.nWriters == 1)
                       + out.Closing(link.nWriters - (if err.wasFCloseCalled then 0 else 1) == 1)
      ensures var xs := err.Closing(link.nWriters == 1)
                        + out.Closing(link.nWriters - (if err.wasFCloseCalled then 0 else 1) == 1);
              && base <= sent && Woven(sent[|base|..], mine + xs, answers)
              && CompleteResponse(mine + xs, out.Id(), Taken(history, Out), Taken(history, Err),
                                  InForce(history, status0))
    {
      hide Ledger, InForce, Closed, Taken, EncodeAll, Carries, Ends, Reads, Requested, Woven, Frame, CloseRecords,
           CompleteResponse;
      var es, os := err.Closing(link.nWriters == 1),
          out.Closing(link.nWriters - (if err.wasFCloseCalled then 0 else 1) == 1);
      Assoc(link.sent, es, os);
      Seam(link.sent, es + os);
      SuffixJoin(base, link.sent, sent);
      WovenMore(Since(), mine, answers, es + os);
      LedgerFinishes(mine, out.Id(), history, status0, SideOf(out), SideOf(err), es, os);
    }

    /** Any program of calls on the three streams, as long as no answer overruns its array. */
    method Run(ops: seq<Op>) returns (read: seq<byte>)
      requires Valid() && history == [] && got == [] && AllLegal(promise.replies)
      modifies this`history, this`mine, this`got, this`answers, link, out, err, out.buff, err.buff, input, input.buff
      ensures Valid() && history == ops && got == read
      ensures !link.writeFailed && !Overreads(promise, ops) ==>
                && answers <= promise.replies && read == promise.bytes[..Min(Requested(ops), |promise.bytes|)]
                && Woven(Since(), mine, answers)
      ensures !link.writeFailed && !Overreads(promise, ops) && AllClosed(ops) ==>
                && CompleteResponse(mine, out.Id(), Taken(ops, Out), Taken(ops, Err), InForce(ops, status0))
                && (AllLegal(base) ==> ParseAll(link.outbound) == Whole(base + Since()))
    {
      hide Ledger, InForce, Closed, Taken, Requested, SideOf, EncodeAll, CompleteResponse, Woven, Reads;
      read := [];
      for i := 0 to |ops|
        invariant Valid() && history == ops[..i] && got == read
      {
        TakeNext(ops, i);
        match ops[i] {
          case Close(which) => var rc := CloseStream(which);
          case SetExitStatus(status) => SetStatus(status);
          case Read(n) =>
            var s := ReadInput(n);
            read := read + s;
          case _ => var r := Write(ops[i]);
        }
      }
      assert ops[..|ops|] == ops;
      if !link.writeFailed && !Overreads(promise, ops) {
        AnswersAreLegal();
        if AllClosed(ops) {
          WireWhenClosed();
        }
      }
    }
  }
}
