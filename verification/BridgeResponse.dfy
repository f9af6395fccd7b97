/**
  The bridge's side of the response: AppServerReadHandler's incremental record parser, which
  copies the application's two output streams to its own stdout and stderr.
 */
module BridgeResponse {
  import opened Seqs
  import opened Protocol
  import opened OutputStream
  import opened Response
  import BridgeRequest

  /** Some, but not all, of the bytes of a header or of an END_REQUEST body. */
  type Part = n: nat | n < HEADER_LEN

  /**
    Waiting for a header of which some bytes are there, or inside a record of which content and
    padding are still owed, or inside the body of an END_REQUEST of which some bytes are there.
   */
  datatype Phase = AtHeader(got: Part) | InRecord(rtype: byte, cLen: nat, pad: nat) | InEndBody(owed: Part, pad: nat)

  datatype Status = Unset | Set(value: int)

  datatype State = State(phase: Phase, out: seq<byte>, err: seq<byte>, status: Status)

  const INITIAL := State(AtHeader(0), [], [], Unset)

  /**
    Going: all bytes are dealt with.  Exited: the bridge ends with a code.  Stray: bytes have been
    copied outside the variable they were meant for.
   */
  datatype Result = Going(state: State) | Exited(code: int) | Stray

  /**
    Where memcpy puts bytes meant for offset `at` of a header or of an END_REQUEST body: `at` is
    added to a pointer to the whole struct, and so counts in structs.
   */
  function Destination(at: nat): nat {
    HEADER_LEN * at
  }

  predicate Inside(at: nat, count: nat) {
    Destination(at) + count <= HEADER_LEN
  }

  /** The copy ends up in its variable if and only if it is the first one. */
  lemma InsideAtFirst(at: Part, count: nat)
    requires 0 < count <= HEADER_LEN - at
    ensures Inside(at, count) <==> at == 0
  {
  }

  /** Once the content is done the padding is stepped over, and the header discarded. */
  function Finish(st: State, rtype: byte, cLen: nat, pad: nat, w: seq<byte>): (State, seq<byte>) {
    if cLen > 0 then (st.(phase := InRecord(rtype, cLen, pad)), w)
    else
      var m := Min(pad, |w|);
      (st.(phase := if m == pad then AtHeader(0) else InRecord(rtype, 0, pad - m)), w[m..])
  }

  datatype Turn = Next(state: State, rest: seq<byte>) | Stop(result: Result)

  /** The bytes of an END_REQUEST body, of which `cLen` are still owed. */
  function EndBody(st: State, cLen: nat, pad: nat, w: seq<byte>): (t: Turn)
    requires w != [] && cLen <= 8
    ensures t.Next? ==> |t.rest| < |w|
    ensures t.Stop? ==> !t.result.Going?
  {
    var n := Min(cLen, |w|);
    if !Inside(8 - cLen, n) then Stop(Stray)
    else if n < cLen then Next(st.(phase := InEndBody(cLen - n, pad)), w[n..])
    else if w[4] != REQUEST_COMPLETE then Stop(Exited(PROTOCOL_ERROR))
    else
      var (s, rest) := Finish(st.(status := Set(StatusOf(w[..8]))), END_REQUEST, 0, pad, w[8..]);
      Next(s, rest)
  }

  /** One turn of the handler's loop. */
  function OneTurn(id: int, st: State, w: seq<byte>): (t: Turn)
    requires w != []
    ensures t.Next? ==> |t.rest| < |w| || (|t.rest| == |w| && st.phase.InRecord? && t.state.phase == AtHeader(0))
    ensures t.Stop? ==> !t.result.Going?
  {
    match st.phase
    case AtHeader(got) =>
      var n := Min(HEADER_LEN - got, |w|);
      if !Inside(got, n) then Stop(Stray)
      else if got + n < HEADER_LEN then Next(st.(phase := AtHeader(got + n)), w[n..])
      else
        var h := ParseHeader(w[..HEADER_LEN]);
        if h.version != VERSION_1 then Stop(Exited(UNSUPPORTED_VERSION))
        else if h.id != id then Stop(Exited(PROTOCOL_ERROR))
        else Next(st.(phase := InRecord(h.rtype, h.contentLength, h.paddingLength)), w[HEADER_LEN..])
    case InEndBody(cLen, pad) => EndBody(st, cLen, pad, w)
    case InRecord(t, cLen, pad) =>
      if t == STDOUT || t == STDERR then
        var n := Min(cLen, |w|);
        var st' := if t == STDOUT then st.(out := st.out + w[..n]) else st.(err := st.err + w[..n]);
        var (s, rest) := Finish(st', t, cLen - n, pad, w[n..]);
        Next(s, rest)
      else if t == END_REQUEST then
        if cLen != 8 then Stop(Exited(PROTOCOL_ERROR)) else EndBody(st, 8, pad, w)
      else Stop(Exited(PROTOCOL_ERROR))
  }

  /** The handler's loop over a non-empty buffer. */
  function Demux(id: int, st: State, w: seq<byte>): Result
    decreases |w|, if st.phase.InRecord? then 1 else 0
  {
    if w == [] then Going(st)
    else
      match OneTurn(id, st, w)
      case Stop(r) => r
      case Next(s, rest) => Demux(id, s, rest)
  }

  // ---------------------------------------------------------------- whole records

  /** A record the application's streams send for this request. */
  predicate Sound(id: nat, r: Record) {
    && Legal(r) && r.id == id
    && (r.rtype == STDOUT || r.rtype == STDERR || r.rtype == END_REQUEST)
    && (r.rtype == END_REQUEST ==> |r.content| == 8 && r.content[4] == REQUEST_COMPLETE && r.padding == [])
  }

  predicate AllSound(id: nat, rs: seq<Record>) {
    forall i :: 0 <= i < |rs| ==> Sound(id, rs[i])
  }

  /** The state after a record, as its meaning has it. */
  function Apply(st: State, r: Record): State {
    if r.rtype == STDOUT then st.(out := st.out + r.content)
    else if r.rtype == STDERR then st.(err := st.err + r.content)
    else if |r.content| == 8 then st.(status := Set(StatusOf(r.content)))
    else st
  }

  /** A record of type 6 or 7, or one of type 3 with a body of eight bytes that says the request is complete. */
  predicate Takes(r: Record) {
    r.rtype == 6 || r.rtype == 7 || (r.rtype == 3 && |r.content| == 8 && r.content[4] == 0)
  }

  /** A header of another version than 1: FCGX_UNSUPPORTED_VERSION. */
  lemma OtherVersion(id: int, st: State, w: seq<byte>)
    requires st.phase == AtHeader(0) && |w| >= 8 && w[0] != 1
    ensures Demux(id, st, w) == Exited(-2)
  {
    hide StatusOf;
  }

  /**
    Any legal record in front of anything: of another request, it ends the bridge with
    FCGX_PROTOCOL_ERROR; so it does, as soon as a byte follows its header, if it is not one
    that the bridge takes; otherwise it is taken and the bridge goes on with what follows.
   */
  lemma AnyRecord(id: int, st: State, r: Record, w: seq<byte>)
    requires st.phase == AtHeader(0) && Legal(r)
    ensures Demux(id, st, EncodeRecord(r) + w)
            == if r.id != id then Exited(-3)
               else if r.content == [] && r.padding == [] && w == [] then Going(st.(phase := InRecord(r.rtype, 0, 0)))
               else if !Takes(r) then Exited(-3)
               else Demux(id, Apply(st, r), w)
  {
    hide EncodeRecord, ParseHeader, Demux, OneTurn, Takes, Apply;
    RecordParts(r, w);
    HeaderOfAny(id, st, r, w);
    if r.id == id {
      var st1, b := st.(phase := InRecord(r.rtype, |r.content|, |r.padding|)), r.content + r.padding + w;
      if b == [] {
        DemuxNothing(id, st1);
      } else {
        BodyOfAny(id, st, r, w);
      }
    }
  }

  lemma HeaderOfAny(id: int, st: State, r: Record, w: seq<byte>)
    requires st.phase == AtHeader(0) && Legal(r)
    ensures Demux(id, st, EncodeRecord(r) + w)
            == if r.id != id then Exited(-3)
               else Demux(id, st.(phase := InRecord(r.rtype, |r.content|, |r.padding|)), r.content + r.padding + w)
  {
    hide EncodeRecord, ParseHeader, StatusOf;
    RecordParts(r, w);
  }

  lemma BodyOfAny(id: int, st: State, r: Record, w: seq<byte>)
    requires st.phase == AtHeader(0) && Legal(r) && r.content + r.padding + w != []
    ensures Demux(id, st.(phase := InRecord(r.rtype, |r.content|, |r.padding|)), r.content + r.padding + w)
            == if !Takes(r) then Exited(-3) else Demux(id, Apply(st, r), w)
  {
    hide StatusOf;
    var b := r.content + r.padding + w;
    Assoc(r.content, r.padding, w);
    Seam(r.content, r.padding + w);
    Seam(r.padding, w);
    var st1 := st.(phase := InRecord(r.rtype, |r.content|, |r.padding|));
    if Takes(r) {
      if r.rtype == 3 {
        assert b[..8] == r.content && b[4] == r.content[4];
      }
      assert OneTurn(id, st1, b) == Next(Apply(st, r), w);
    } else {
      assert r.rtype == 3 && |r.content| == 8 ==> b[4] == r.content[4];
      assert OneTurn(id, st1, b) == Stop(Exited(-3));
    }
  }

  /** END_REQUEST sets its exit status if it says that the request is complete, and else ends the bridge. */
  lemma AnyEndRequest(id: nat, st: State, n: int, p: byte, w: seq<byte>)
    requires st.phase == AtHeader(0) && id < 65536 && IsInt32(n)
    ensures Demux(id, st, EncodeRecord(EndRequest(id, n, p)) + w)
            == if p == 0 then Demux(id, st.(status := Set(n)), w) else Exited(-3)
  {
    hide EncodeRecord, Demux, StatusOf;
    var r := EndRequest(id, n, p);
    AnyRecord(id, st, r, w);
    StatusRoundTrip(n, p);
  }

  /** A record in front of anything else does to the state what it means. */
  lemma ThroughRecord(id: nat, st: State, r: Record, w: seq<byte>)
    requires st.phase == AtHeader(0) && Sound(id, r) && (w != [] || r.rtype == END_REQUEST)
    ensures Demux(id, st, EncodeRecord(r) + w) == Demux(id, Apply(st, r), w)
  {
    hide EncodeRecord, Demux, Apply;
    AnyRecord(id, st, r, w);
  }

  function ApplyAll(st: State, rs: seq<Record>): State
    decreases |rs|
  {
    if rs == [] then st else ApplyAll(Apply(st, rs[0]), rs[1..])
  }

  lemma {:induction false} ThroughRecords(id: nat, st: State, rs: seq<Record>, e: Record)
    requires st.phase == AtHeader(0) && AllSound(id, rs) && Sound(id, e) && e.rtype == END_REQUEST
    ensures Demux(id, st, EncodeAll(rs) + EncodeRecord(e)) == Going(Apply(ApplyAll(st, rs), e))
    decreases |rs|
  {
    hide EncodeRecord;
    if rs == [] {
      Unit(EncodeRecord(e));
      ThroughRecord(id, st, e, []);
    } else {
      Assoc(EncodeRecord(rs[0]), EncodeAll(rs[1..]), EncodeRecord(e));
      ThroughRecord(id, st, rs[0], EncodeAll(rs[1..]) + EncodeRecord(e));
      ThroughRecords(id, Apply(st, rs[0]), rs[1..], e);
    }
  }

  /** The two streams come out as the contents of their records. */
  lemma {:induction false} AppliedStreams(st: State, rs: seq<Record>)
    requires OfType(rs, END_REQUEST) == []
    requires forall i :: 0 <= i < |rs| ==> rs[i].rtype == STDOUT || rs[i].rtype == STDERR || rs[i].rtype == END_REQUEST
    ensures ApplyAll(st, rs)
            == st.(out := st.out + Joined(OfType(rs, STDOUT)), err := st.err + Joined(OfType(rs, STDERR)))
    decreases |rs|
  {
    if rs == [] {
      Unit(st.out);
      Unit(st.err);
    } else {
      var r := rs[0];
      AppliedStreams(Apply(st, r), rs[1..]);
      JoinedOfType(rs, STDOUT);
      JoinedOfType(rs, STDERR);
      Assoc(st.out, r.content, Joined(OfType(rs[1..], STDOUT)));
      Assoc(st.err, r.content, Joined(OfType(rs[1..], STDERR)));
    }
  }

  lemma JoinedOfType(rs: seq<Record>, t: byte)
    requires rs != []
    ensures Joined(OfType(rs, t)) == if rs[0].rtype == t then rs[0].content + Joined(OfType(rs[1..], t))
            else Joined(OfType(rs[1..], t))
  {
    var x := OfType(rs[1..], t);
    if rs[0].rtype == t {
      assert ([rs[0]] + x)[1..] == x;
    } else {
      Unit(x);
    }
  }

  /** A complete response, read in one piece. */
  lemma ResponseInOnePiece(id: nat, rs: seq<Record>, out: seq<byte>, err: seq<byte>, status: int)
    requires CompleteResponse(rs, id, out, err, status) && IsInt32(status)
    ensures AllSound(id, rs)
    ensures Demux(id, INITIAL, EncodeAll(rs)) == Going(State(AtHeader(0), out, err, Set(status)))
  {
    hide EncodeRecord, StatusOf, EndRequestBody, Demux, OfType, Joined, EncodeAll;
    var k := |rs| - 1;
    var e := rs[k];
    SplitAt(rs, k);
    assert rs[k..] == [e];
    EndIsSound(id, status);
    BodyIsSound(id, rs[..k]);
    assert forall i :: 0 <= i < k ==> rs[i] == rs[..k][i];
    EncodeAllSnoc(rs[..k], e);
    ThroughRecords(id, INITIAL, rs[..k], e);
    AppliedStreams(INITIAL, rs[..k]);
    StatusRoundTrip(status, REQUEST_COMPLETE);
    OfTypeConcat(rs[..k], [e], STDOUT);
    OfTypeConcat(rs[..k], [e], STDERR);
    OfOneType([e], END_REQUEST, STDOUT);
    OfOneType([e], END_REQUEST, STDERR);
    Unit(OfType(rs[..k], STDOUT));
    Unit(OfType(rs[..k], STDERR));
    Unit(out);
    Unit(err);
  }

  lemma EndIsSound(id: nat, status: int)
    requires id < 65536
    ensures Sound(id, EndRequest(id, status, REQUEST_COMPLETE))
  {
  }

  lemma {:induction false} BodyIsSound(id: nat, rs: seq<Record>)
    requires Ours(id, rs) && OfType(rs, END_REQUEST) == []
    ensures AllSound(id, rs)
  {
    if rs != [] {
      BodyIsSound(id, rs[1..]);
      assert forall i :: 1 <= i < |rs| ==> rs[i] == rs[1..][i - 1];
    }
  }

  // ---------------------------------------------------------------- reads in any chunks

  /** The next read can go on from here: no copy is half done, and no padding of END_REQUEST is owed. */
  predicate Resumable(st: State) {
    match st.phase
    case AtHeader(got) => got == 0
    case InEndBody(_, _) => false
    case InRecord(t, cLen, _) => t == END_REQUEST ==> cLen != 0
  }

  /** From anywhere else the next bytes go astray, or end the bridge. */
  lemma NotResumable(id: int, st: State, w: seq<byte>)
    requires !Resumable(st) && w != []
    ensures Demux(id, st, w) == if st.phase.InRecord? then Exited(PROTOCOL_ERROR) else Stray
  {
  }

  /** One turn with more bytes behind: it goes just as far, or does at once what the next call would do. */
  lemma TurnThenMore(id: int, st: State, a: seq<byte>, b: seq<byte>)
    requires a != [] && OneTurn(id, st, a).Next? && Resumable(OneTurn(id, st, a).state)
    ensures var t := OneTurn(id, st, a);
            || OneTurn(id, st, a + b) == Next(t.state, t.rest + b)
            || (t.rest == [] && b != [] && OneTurn(id, st, a + b) == OneTurn(id, t.state, b))
  {
    hide ParseHeader, StatusOf;
    match st.phase
    case AtHeader(_) =>
      PrefixOfSum(a, b, HEADER_LEN);
    case InEndBody(_, _) =>
    case InRecord(t, cLen, pad) =>
      if t == END_REQUEST {
        PrefixOfSum(a, b, 8);
        PrefixOfSum(a[8..], b, Min(pad, |a| - 8));
      } else if b == [] {
        Unit(a);
        Unit(OneTurn(id, st, a).rest);
      } else if cLen > |a| {
        ContentCut(id, st, a, b);
      } else {
        PrefixOfSum(a, b, cLen);
        PrefixOfSum(a[cLen..], b, Min(pad, |a| - cLen));
        if pad > |a| - cLen {
          PaddingCut(id, st, a, b);
        }
      }
  }

  lemma PrefixOfSum(a: seq<byte>, b: seq<byte>, n: nat)
    ensures n <= |a| ==> (a + b)[..n] == a[..n] && (a + b)[n..] == a[n..] + b
  {
  }

  /** The chunk ends inside the content. */
  lemma ContentCut(id: int, st: State, a: seq<byte>, b: seq<byte>)
    requires a != [] && b != [] && st.phase.InRecord? && |a| < st.phase.cLen && OneTurn(id, st, a).Next?
    requires st.phase.rtype != END_REQUEST
    ensures var t := OneTurn(id, st, a);
            t.rest == [] && OneTurn(id, st, a + b) == OneTurn(id, t.state, b)
  {
    var cLen, n := st.phase.cLen, Min(st.phase.cLen, |a| + |b|);
    assert (a + b)[..n] == a + b[..n - |a|];
    assert (a + b)[n..] == b[n - |a|..];
    assert a[..|a|] == a;
    Assoc(st.out, a, b[..n - |a|]);
    Assoc(st.err, a, b[..n - |a|]);
  }

  /** The chunk ends inside the padding. */
  lemma PaddingCut(id: int, st: State, a: seq<byte>, b: seq<byte>)
    requires a != [] && b != [] && st.phase.InRecord? && OneTurn(id, st, a).Next?
    requires st.phase.cLen <= |a| < st.phase.cLen + st.phase.pad && st.phase.rtype != END_REQUEST
    ensures var t := OneTurn(id, st, a);
            t.rest == [] && OneTurn(id, st, a + b) == OneTurn(id, t.state, b)
  {
    var c, pad := st.phase.cLen, st.phase.pad;
    PrefixOfSum(a, b, c);
    var k := |a| - c;
    var m := Min(pad, k + |b|);
    assert (a[c..] + b)[m..] == b[m - k..];
    assert b[..0] == [] && b[0..] == b;
    Unit(st.out + a[..c]);
    Unit(st.err + a[..c]);
  }

  /** What was read first and what is read next may as well have come together. */
  lemma {:induction false} DemuxInTwo(id: int, st: State, a: seq<byte>, b: seq<byte>)
    requires Demux(id, st, a).Going? && Resumable(Demux(id, st, a).state)
    ensures Demux(id, st, a + b) == Demux(id, Demux(id, st, a).state, b)
    decreases |a|, if st.phase.InRecord? then 1 else 0
  {
    hide OneTurn;
    if a == [] {
      Unit(b);
    } else {
      var t := OneTurn(id, st, a);
      if !Resumable(t.state) {
        if t.rest != [] {
          NotResumable(id, t.state, t.rest);
        }
        assert false;
      }
      TurnThenMore(id, st, a, b);
      DemuxInTwo(id, t.state, t.rest, b);
      Unit(b);
    }
  }

  // ---------------------------------------------------------------- where a read may end

  /** Position `k` of the records' bytes is not inside a header or an END_REQUEST body. */
  predicate SafeCut(rs: seq<Record>, k: nat)
    decreases |rs|
  {
    if rs == [] || k == 0 then true
    else
      var n := |EncodeRecord(rs[0])|;
      if k >= n then SafeCut(rs[1..], k - n)
      else k >= HEADER_LEN && (rs[0].rtype == END_REQUEST ==> k == HEADER_LEN)
  }

  /** The bridge can go on from a read ending at `k` exactly when that cuts no header and no END_REQUEST body. */
  lemma {:induction false} ResumableExactlyAtSafeCuts(id: nat, st: State, rs: seq<Record>, k: nat)
    requires st.phase == AtHeader(0) && AllSound(id, rs) && k <= |EncodeAll(rs)|
    ensures var d := Demux(id, st, EncodeAll(rs)[..k]);
            d.Going? && (Resumable(d.state) <==> SafeCut(rs, k)) && (d.state.phase.InRecord? ==> Resumable(d.state))
    decreases |rs|
  {
    hide EncodeRecord;
    var w := EncodeAll(rs)[..k];
    if k == 0 || rs == [] {
      assert w == [];
    } else {
      var r, t := rs[0], EncodeAll(rs[1..]);
      var n := |EncodeRecord(r)|;
      if k >= n {
        PrefixBeyond(EncodeRecord(r), t, k);
        if k == n && r.rtype != END_REQUEST {
          assert SafeCut(rs[1..], 0);
          Seam(EncodeRecord(r), t);
          WholeRecordEnds(id, st, r);
        } else {
          ThroughRecord(id, st, r, t[..k - n]);
          ResumableExactlyAtSafeCuts(id, Apply(st, r), rs[1..], k - n);
        }
      } else {
        assert w == EncodeRecord(r)[..k];
        PartOfRecord(id, st, r, k);
      }
    }
  }

  lemma WholeRecordEnds(id: nat, st: State, r: Record)
    requires st.phase == AtHeader(0) && Sound(id, r) && r.rtype != END_REQUEST
    ensures var d := Demux(id, st, EncodeRecord(r)); d.Going? && Resumable(d.state)
  {
    hide EncodeRecord, Demux;
    Unit(EncodeRecord(r));
    AnyRecord(id, st, r, []);
    DemuxNothing(id, Apply(st, r));
  }

  lemma DemuxNothing(id: int, st: State)
    ensures Demux(id, st, []) == Going(st)
  {
  }

  lemma PartOfRecord(id: nat, st: State, r: Record, k: nat)
    requires st.phase == AtHeader(0) && Sound(id, r) && 0 < k < |EncodeRecord(r)|
    ensures var d := Demux(id, st, EncodeRecord(r)[..k]);
            && d.Going? && (d.state.phase.InRecord? ==> Resumable(d.state))
            && (Resumable(d.state) <==> k >= HEADER_LEN && (r.rtype == END_REQUEST ==> k == HEADER_LEN))
  {
    hide EncodeRecord, ParseHeader, StatusOf;
    var w := EncodeRecord(r)[..k];
    if k >= HEADER_LEN {
      Unit(EncodeRecord(r));
      RecordParts(r, []);
      assert w[..HEADER_LEN] == EncodeRecord(r)[..HEADER_LEN];
      var st1, b := st.(phase := InRecord(r.rtype, |r.content|, |r.padding|)), w[HEADER_LEN..];
      assert OneTurn(id, st, w) == Next(st1, b);
      if b != [] {
        assert OneTurn(id, st1, b).Next? && OneTurn(id, st1, b).rest == [];
        DemuxNothing(id, OneTurn(id, st1, b).state);
      }
    } else {
      assert OneTurn(id, st, w) == Next(st.(phase := AtHeader(k)), w[k..]);
      DemuxNothing(id, st.(phase := AtHeader(k)));
    }
  }

  /**
    Two reads do what one would if and only if the first ends at a safe place; otherwise the
    second one's first bytes are copied astray.
   */
  lemma TwoReads(id: nat, st: State, rs: seq<Record>, k: nat)
    requires st.phase == AtHeader(0) && AllSound(id, rs) && k < |EncodeAll(rs)|
    ensures var w := EncodeAll(rs);
            var d := Demux(id, st, w[..k]);
            && d.Going? && Demux(id, st, w).Going?
            && Demux(id, d.state, w[k..]) == if SafeCut(rs, k) then Demux(id, st, w) else Stray
  {
    hide Demux, EncodeAll, SafeCut;
    var w := EncodeAll(rs);
    ResumableExactlyAtSafeCuts(id, st, rs, k);
    ResumableExactlyAtSafeCuts(id, st, rs, |w|);
    assert w[..|w|] == w;
    var d := Demux(id, st, w[..k]);
    if SafeCut(rs, k) {
      DemuxInTwo(id, st, w[..k], w[k..]);
      SplitAt(w, k);
    } else {
      NotResumable(id, d.state, w[k..]);
    }
  }

  // ---------------------------------------------------------------- a run of reads

  /** Successive calls of the handler. */
  function Feed(id: int, st: State, chunks: seq<seq<byte>>): Result {
    if chunks == [] then Going(st)
    else
      match Feed(id, st, chunks[..|chunks| - 1])
      case Going(s) => Demux(id, s, chunks[|chunks| - 1])
      case r => r
  }

  /** Every read but the last ends where the bridge can go on. */
  predicate SafeSplit(rs: seq<Record>, chunks: seq<seq<byte>>) {
    forall i :: 0 <= i < |chunks| ==> SafeCut(rs, |Flatten(chunks[..i])|)
  }

  /** Reads that all end at safe places do what one read would; any others go astray. */
  lemma {:induction false} FeedIsDemux(id: nat, rs: seq<Record>, chunks: seq<seq<byte>>)
    requires AllSound(id, rs) && Flatten(chunks) <= EncodeAll(rs)
    requires forall i :: 0 <= i < |chunks| ==> chunks[i] != []
    ensures Feed(id, INITIAL, chunks) == if SafeSplit(rs, chunks) then Demux(id, INITIAL, Flatten(chunks)) else Stray
    decreases |chunks|
  {
    hide Demux, SafeCut, EncodeAll;
    if chunks == [] {
      DemuxNothing(id, INITIAL);
    } else {
      var n := |chunks| - 1;
      var before, c := chunks[..n], chunks[n];
      var w := Flatten(before);
      assert forall i :: 0 <= i <= n ==> before[..i] == chunks[..i];
      FeedIsDemux(id, rs, before);
      assert EncodeAll(rs)[..|w|] == w;
      ResumableExactlyAtSafeCuts(id, INITIAL, rs, |w|);
      if SafeSplit(rs, before) {
        if SafeCut(rs, |w|) {
          DemuxInTwo(id, INITIAL, w, c);
        } else {
          NotResumable(id, Demux(id, INITIAL, w).state, c);
          assert !SafeSplit(rs, chunks) by {
            assert chunks[..n] == before;
          }
        }
      }
    }
  }

  /**
    A complete response in any non-empty chunks: it leaves on stdout and stderr exactly what the
    application put there, and its exit status, if and only if no chunk but the last ends inside
    a header or the END_REQUEST body.
   */
  lemma ResponseInAnyChunks(id: nat, rs: seq<Record>, out: seq<byte>, err: seq<byte>, status: int,
                            chunks: seq<seq<byte>>)
    requires CompleteResponse(rs, id, out, err, status) && IsInt32(status)
    requires Flatten(chunks) == EncodeAll(rs) && forall i :: 0 <= i < |chunks| ==> chunks[i] != []
    ensures Feed(id, INITIAL, chunks)
            == if SafeSplit(rs, chunks) then Going(State(AtHeader(0), out, err, Set(status))) else Stray
  {
    hide Demux, CompleteResponse, EncodeAll, Flatten, Feed, SafeSplit;
    ResponseInOnePiece(id, rs, out, err, status);
    FeedIsDemux(id, rs, chunks);
  }

  // ---------------------------------------------------------------- the handler

  class Bridge {
    const requestId: int
    const fromAS: array<byte>
    var next: nat
    var stop: nat

    /** The header of the current record is complete when headerLen is HEADER_LEN. */
    const header: array<byte>
    var headerLen: nat
    var contentLen: nat
    var paddingLen: nat
    const erBody: array<byte>
    var readingEndRequestBody: bool
    var exitStatus: int
    var exitStatusSet: bool

    /** What has been written to the bridge's own stdout and stderr; the code it exited with. */
    var stdout: seq<byte>
    var stderr: seq<byte>
    var exited: Status

    /** Bytes have been copied outside `header` or `erBody`. */
    var strayed: bool

    ghost predicate Valid()
      reads this, header
    {
      && fromAS.Length == BridgeRequest.BUFFLEN && header.Length == HEADER_LEN && erBody.Length == 8
      && fromAS != header && fromAS != erBody && header != erBody
      && headerLen <= HEADER_LEN
      && (headerLen < HEADER_LEN ==> paddingLen == 0 && !readingEndRequestBody)
      && (readingEndRequestBody ==> 0 < contentLen < 8 && header[1] == END_REQUEST)
    }

    ghost function View(): State
      requires Valid()
      reads this, header
    {
      State(if headerLen < HEADER_LEN then AtHeader(headerLen)
            else if readingEndRequestBody then InEndBody(contentLen, paddingLen)
            else InRecord(header[1], contentLen, paddingLen),
            stdout, stderr, if exitStatusSet then Set(exitStatus) else Unset)
    }

    ghost predicate Running()
      reads this
    {
      exited == Unset && !strayed
    }

    /** What has been run so far amounts to `r`. */
    ghost predicate Reached(r: Result)
      requires Valid()
      reads this, header
    {
      match r
      case Going(st) => Running() && View() == st
      case Exited(code) => exited == Set(code) && !strayed
      case Stray => strayed
    }

    constructor (requestId: int)
      ensures Valid() && View() == INITIAL && Running() && this.requestId == requestId
      ensures fresh({fromAS, header, erBody})
    {
      this.requestId := requestId;
      fromAS := new byte[BridgeRequest.BUFFLEN];
      header := new byte[HEADER_LEN];
      erBody := new byte[8];
      next, stop, headerLen, contentLen, paddingLen := 0, 0, 0, 0, 0;
      readingEndRequestBody, exitStatus, exitStatusSet := false, 0, false;
      stdout, stderr, exited, strayed := [], [], Unset, false;
    }

    /** GetPtr: at most `n` bytes, as far as the buffer has them. */
    method GetPtr(n: nat) returns (ptr: seq<byte>)
      requires next <= stop <= fromAS.Length
      modifies this`next
      ensures next == old(next) + Min(n, stop - old(next))
      ensures |ptr| == Min(n, stop - old(next)) && ptr == old(fromAS[next..stop])[..|ptr|]
      ensures fromAS[next..stop] == old(fromAS[next..stop])[|ptr|..]
    {
      var result := Min(n, stop - next);
      ptr := fromAS[next..next + result];
      next := next + result;
    }

    /** memcpy to a struct's address plus `at`; bytes that do not land in it are not followed any further. */
    method Copy(struct: array<byte>, at: nat, bytes: seq<byte>)
      requires struct.Length == HEADER_LEN
      modifies struct, this`strayed
      ensures strayed == (old(strayed) || !Inside(at, |bytes|))
      ensures Inside(at, |bytes|) ==>
                struct[Destination(at)..Destination(at) + |bytes|] == bytes
                && forall i :: 0 <= i < Destination(at) ==> struct[i] == old(struct[i])
    {
      var to := Destination(at);
      if to + |bytes| > struct.Length {
        strayed := true;
        return;
      }
      forall i | 0 <= i < |bytes| {
        struct[to + i] := bytes[i];
      }
    }

    /** AppServerReadHandler, for whatever the read brought: an error, the end, or data. */
    method AppServerReadHandler(bytesRead: int, osErrno: nat)
      requires Valid() && Running() && next == 0 && bytesRead <= fromAS.Length
      modifies this, header, erBody
      ensures Valid()
      ensures bytesRead < 0 ==> exited == Set(osErrno)
      ensures bytesRead == 0 ==>
                exited == Set(if View().phase == AtHeader(0) && exitStatusSet then exitStatus else PROTOCOL_ERROR)
      ensures bytesRead <= 0 ==> View() == old(View()) && !strayed
      ensures bytesRead > 0 ==> Reached(Demux(requestId, old(View()), fromAS[..bytesRead]))
    {
      if bytesRead <= 0 {
        if bytesRead < 0 {
          exited := Set(osErrno);
        } else if headerLen > 0 || paddingLen > 0 {
          exited := Set(PROTOCOL_ERROR);
        } else {
          exited := Set(if exitStatusSet then exitStatus else PROTOCOL_ERROR);
        }
        return;
      }
      hide Demux, OneTurn;
      stop := next + bytesRead;
      ghost var r := Demux(requestId, View(), fromAS[..stop]);
      while next != stop
        invariant Valid() && next <= stop == bytesRead && Running()
        invariant Demux(requestId, View(), fromAS[next..stop]) == r
        decreases stop - next, headerLen
      {
        OneMoreTurn(requestId, View(), fromAS[next..stop]);
        if headerLen < HEADER_LEN {
          TakeHeader();
        } else {
          TakeBody();
        }
        if exited != Unset || strayed {
          return;
        }
      }
      DemuxEnds(requestId, View(), fromAS[next..stop]);
    }

    /** OS_DoIo reads into the buffer that ScheduleIo armed, and calls the handler. */
    method Read(chunk: seq<byte>)
      requires Valid() && Running() && 0 < |chunk| <= BridgeRequest.BUFFLEN
      modifies this, fromAS, header, erBody
      ensures Valid()
      ensures Reached(Demux(requestId, old(View()), chunk))
    {
      hide Demux;
      next := 0;
      forall i | 0 <= i < |chunk| {
        fromAS[i] := chunk[i];
      }
      assert fromAS[..|chunk|] == chunk;
      AppServerReadHandler(|chunk|, 0);
    }

    /** A header not yet complete comes before anything else. */
    method TakeHeader()
      requires Valid() && next < stop <= fromAS.Length && headerLen < HEADER_LEN && Running()
      modifies this, header
      ensures Valid() && next <= stop == old(stop)
      ensures Turned(OneTurn(requestId, old(View()), old(fromAS[next..stop])))
      ensures Running() ==> next > old(next)
    {
      hide ParseHeader;
      ghost var w := fromAS[next..stop];
      var ptr := GetPtr(HEADER_LEN - headerLen);
      InsideAtFirst(headerLen, |ptr|);
      Copy(header, headerLen, ptr);
      if strayed {
        return;
      }
      headerLen := headerLen + |ptr|;
      if headerLen < HEADER_LEN {
        return;
      }
      assert header[..] == w[..HEADER_LEN];
      var h := ParseHeader(header[..]);
      HeaderType(header[..]);
      if h.version != VERSION_1 {
        exited := Set(UNSUPPORTED_VERSION);
        return;
      }
      if h.id != requestId {
        exited := Set(PROTOCOL_ERROR);
        return;
      }
      contentLen := h.contentLength;
      paddingLen := h.paddingLength;
    }

    /** The loop has made the turn `t`. */
    ghost predicate Turned(t: Turn)
      requires Valid() && next <= stop <= fromAS.Length
      reads this, fromAS, header
    {
      match t
      case Stop(r) => Reached(r)
      case Next(st, rest) => Running() && View() == st && fromAS[next..stop] == rest
    }

    method TakeBody()
      requires Valid() && next < stop <= fromAS.Length && headerLen == HEADER_LEN && Running()
      modifies this, erBody
      ensures Valid() && next <= stop == old(stop)
      ensures Turned(OneTurn(requestId, old(View()), old(fromAS[next..stop])))
      ensures Running() ==> next > old(next) || (next == old(next) && headerLen == 0)
    {
      if header[1] == STDOUT || header[1] == STDERR {
        TakeStreamRecord();
      } else if header[1] == END_REQUEST {
        TakeEndRequest();
      } else {
        exited := Set(PROTOCOL_ERROR);
      }
    }

    method TakeStreamRecord()
      requires Valid() && next < stop <= fromAS.Length && headerLen == HEADER_LEN && Running()
      requires header[1] == STDOUT || header[1] == STDERR
      modifies this
      ensures Valid() && next <= stop == old(stop)
      ensures Turned(OneTurn(requestId, old(View()), old(fromAS[next..stop])))
      ensures Running() ==> next > old(next) || (next == old(next) && headerLen == 0)
    {
      hide StatusOf, Finish;
      ghost var phase := View().phase;
      Unit(stdout);
      Unit(stderr);
      TakeStream();
      FinishFromAnyPhase(View(), phase, header[1], contentLen, paddingLen, fromAS[next..stop]);
      SkipPadding();
    }

    /** Writes the buffered content to stdout or stderr. */
    method TakeStream()
      requires Valid() && next < stop <= fromAS.Length && headerLen == HEADER_LEN && !readingEndRequestBody
      requires header[1] == STDOUT || header[1] == STDERR
      modifies this`next, this`contentLen, this`stdout, this`stderr
      ensures Valid() && next == old(next) + Min(old(contentLen), stop - old(next))
      ensures var w, n := old(fromAS[next..stop]), next - old(next);
              && fromAS[next..stop] == w[n..]
              && contentLen == old(contentLen) - n
              && stdout == old(stdout) + (if header[1] == STDOUT then w[..n] else [])
              && stderr == old(stderr) + (if header[1] == STDERR then w[..n] else [])
    {
      var ptr := GetPtr(contentLen);
      contentLen := contentLen - |ptr|;
      Unit(stdout);
      Unit(stderr);
      if |ptr| > 0 {
        if header[1] == STDOUT {
          stdout := stdout + ptr;
        } else {
          stderr := stderr + ptr;
        }
      }
    }

    /** Takes the exit status out of the END_REQUEST body. */
    method TakeEndRequest()
      requires Valid() && next < stop <= fromAS.Length && headerLen == HEADER_LEN && Running()
      requires header[1] == END_REQUEST
      modifies this, erBody
      ensures Valid() && next <= stop == old(stop)
      ensures Turned(OneTurn(requestId, old(View()), old(fromAS[next..stop])))
      ensures Running() ==> next > old(next)
    {
      hide StatusOf, Finish;
      ghost var w, phase := fromAS[next..stop], View().phase;
      if !readingEndRequestBody {
        if contentLen != 8 {
          exited := Set(PROTOCOL_ERROR);
          return;
        }
      }
      var ptr := GetPtr(contentLen);
      if |ptr| > 0 {
        Copy(erBody, 8 - contentLen, ptr);
        if strayed {
          return;
        }
        contentLen := contentLen - |ptr|;
      }
      readingEndRequestBody := contentLen > 0;
      if contentLen == 0 {
        assert erBody[..] == w[..8];
        FinishFromAnyPhase(View().(status := Set(StatusOf(w[..8]))), phase, END_REQUEST, 0, paddingLen,
                           fromAS[next..stop]);
        TakeStatus();
      }
    }

    /** The body is complete. */
    method TakeStatus()
      requires Valid() && next <= stop <= fromAS.Length && headerLen == HEADER_LEN && Running()
      requires contentLen == 0 && !readingEndRequestBody && header[1] == END_REQUEST
      modifies this
      ensures Valid() && next <= stop == old(stop) && !strayed
      ensures if erBody[4] != REQUEST_COMPLETE then exited == Set(PROTOCOL_ERROR)
              else
                var (st, rest) := Finish(old(View()).(status := Set(StatusOf(erBody[..]))), END_REQUEST, 0,
                                         old(paddingLen), old(fromAS[next..stop]));
                Running() && View() == st && fromAS[next..stop] == rest
      ensures next >= old(next)
    {
      hide StatusOf, Finish;
      if erBody[4] != REQUEST_COMPLETE {
        exited := Set(PROTOCOL_ERROR);
        return;
      }
      exitStatus := StatusOf(erBody[..]);
      exitStatusSet := true;
      SkipPadding();
    }

    /** All the data being processed, skip the padding and look for the next header. */
    method SkipPadding()
      requires Valid() && next <= stop <= fromAS.Length && headerLen == HEADER_LEN && !readingEndRequestBody
      modifies this`next, this`paddingLen, this`headerLen
      ensures Valid() && next <= stop
      ensures var (st, rest) := Finish(old(View()), header[1], contentLen, old(paddingLen), old(fromAS[next..stop]));
              View() == st && fromAS[next..stop] == rest
      ensures next > old(next) || (next == old(next) && (headerLen == 0 || contentLen > 0 || next == stop))
    {
      if contentLen == 0 {
        if paddingLen > 0 {
          var ptr := GetPtr(paddingLen);
          paddingLen := paddingLen - |ptr|;
        }
        if paddingLen == 0 {
          headerLen := 0;
        }
      }
    }
  }

  lemma HeaderType(h: seq<byte>)
    requires |h| == HEADER_LEN
    ensures ParseHeader(h).rtype == h[1]
  {
  }

  lemma FinishFromAnyPhase(st: State, phase: Phase, t: byte, cLen: nat, pad: nat, w: seq<byte>)
    ensures Finish(st.(phase := phase), t, cLen, pad, w) == Finish(st, t, cLen, pad, w)
  {
  }

  lemma OneMoreTurn(id: int, st: State, w: seq<byte>)
    requires w != []
    ensures Demux(id, st, w) == match OneTurn(id, st, w) case Stop(r) => r case Next(s, rest) => Demux(id, s, rest)
  {
  }

  lemma DemuxEnds(id: int, st: State, w: seq<byte>)
    requires w == []
    ensures Demux(id, st, w) == Going(st)
  {
  }
}
