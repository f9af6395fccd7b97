/**
  The FastCGI 1.0 wire format: record headers, whole records, and the parser that
  inverts them.  Every other module speaks of the connection in these terms.
 */
module Protocol {
  import opened Seqs

  type byte = b: int | 0 <= b < 256

  const HEADER_LEN := 8
  const MAX_LENGTH := 0xffff
  const VERSION_1: byte := 1

  /** What the byte operations return at the end of a stream. */
  const EOF := -1

  const BEGIN_REQUEST: byte := 1
  const END_REQUEST: byte := 3
  const PARAMS: byte := 4
  const STDIN: byte := 5
  const STDOUT: byte := 6
  const STDERR: byte := 7
  const DATA: byte := 8
  const GET_VALUES: byte := 9
  const GET_VALUES_RESULT: byte := 10
  const UNKNOWN_TYPE: byte := 11

  const NULL_REQUEST_ID := 0

  const RESPONDER := 1
  const AUTHORIZER := 2
  const FILTER := 3

  const REQUEST_COMPLETE := 0
  const CANT_MPX_CONN := 1

  const UNSUPPORTED_VERSION := -2
  const PROTOCOL_ERROR := -3
  const PARAMS_ERROR := -4
  const CALL_SEQ_ERROR := -5

  /** `n` zero bytes: the well-defined padding of the library's own records. */
  function Zeros(n: nat): (z: seq<byte>)
    ensures |z| == n
  {
    seq(n, i => 0)
  }

  // ---------------------------------------------------------------- headers

  datatype Header = Header(version: byte, rtype: byte, id: nat, contentLength: nat, paddingLength: nat)

  /** The eight header bytes, with the `reserved` byte left to the sender. */
  function HeaderBytes(rtype: int, id: int, cLen: int, pLen: int, reserved: byte): (h: seq<byte>)
    ensures |h| == HEADER_LEN && h[7] == reserved
  {
    [VERSION_1, rtype % 256, (id / 256) % 256, id % 256, (cLen / 256) % 256, cLen % 256, pLen % 256, reserved]
  }

  /** MakeHeader of both programs: shifts and masks, reserved byte zero. */
  function MakeHeader(rtype: int, id: int, cLen: int, pLen: int): (h: seq<byte>)
    requires 0 <= cLen <= MAX_LENGTH && 0 <= pLen <= 0xff
    ensures |h| == HEADER_LEN
  {
    HeaderBytes(rtype, id, cLen, pLen, 0)
  }

  /** Two bytes, most significant first. */
  function Word(hi: int, lo: int): int {
    hi * 256 + lo
  }

  function ParseHeader(h: seq<byte>): Header
    requires |h| == HEADER_LEN
  {
    Header(h[0], h[1], Word(h[2], h[3]), Word(h[4], h[5]), h[6])
  }

  /** What a receiver reads back from the bytes a sender makes. */
  lemma HeaderRoundTrip(rtype: int, id: int, cLen: int, pLen: int, reserved: byte)
    ensures ParseHeader(HeaderBytes(rtype, id, cLen, pLen, reserved))
            == Header(VERSION_1, rtype % 256, id % 65536, cLen % 65536, pLen % 256)
  {
    SplitWord(id);
    SplitWord(cLen);
  }

  lemma SplitWord(n: int)
    ensures Word((n / 256) % 256, n % 256) == n % 65536
  {
  }

  // ---------------------------------------------------------------- records

  datatype Record = Record(rtype: byte, id: nat, content: seq<byte>, padding: seq<byte>, reserved: byte)

  /** The record's fields fit the header that must carry them. */
  predicate Legal(r: Record) {
    r.id < 65536 && |r.content| <= MAX_LENGTH && |r.padding| <= 0xff
  }

  predicate AllLegal(rs: seq<Record>) {
    forall i :: 0 <= i < |rs| ==> Legal(rs[i])
  }

  /** A record as both programs emit it themselves: zero padding, reserved byte zero. */
  function Plain(rtype: byte, id: nat, content: seq<byte>, pad: nat): Record {
    Record(rtype, id, content, Zeros(pad), 0)
  }

  function EncodeRecord(r: Record): (w: seq<byte>)
    ensures |w| == HEADER_LEN + |r.content| + |r.padding|
  {
    HeaderBytes(r.rtype, r.id, |r.content|, |r.padding|, r.reserved) + r.content + r.padding
  }

  function EncodeAll(rs: seq<Record>): (w: seq<byte>) {
    if rs == [] then [] else EncodeRecord(rs[0]) + EncodeAll(rs[1..])
  }

  lemma {:induction false} EncodeAllConcat(a: seq<Record>, b: seq<Record>)
    ensures EncodeAll(a + b) == EncodeAll(a) + EncodeAll(b)
  {
    if a == [] {
      assert a + b == b;
    } else {
      assert (a + b)[1..] == a[1..] + b;
      EncodeAllConcat(a[1..], b);
    }
  }

  lemma EncodeAllCons(r: Record, rs: seq<Record>)
    ensures EncodeAll([r] + rs) == EncodeRecord(r) + EncodeAll(rs)
  {
  }

  lemma EncodeAllSnoc(a: seq<Record>, r: Record)
    ensures EncodeAll(a + [r]) == EncodeAll(a) + EncodeRecord(r)
  {
    EncodeAllConcat(a, [r]);
    assert [r][1..] == [];
    assert EncodeAll([r]) == EncodeRecord(r) + [];
  }

  /** The three parts of an encoded record, found again in front of any continuation. */
  lemma RecordParts(r: Record, w: seq<byte>)
    requires Legal(r)
    ensures var e := EncodeRecord(r) + w;
            && |e| == HEADER_LEN + |r.content| + |r.padding| + |w|
            && ParseHeader(e[..HEADER_LEN]) == Header(VERSION_1, r.rtype, r.id, |r.content|, |r.padding|)
            && e[HEADER_LEN - 1] == r.reserved
            && e[HEADER_LEN..] == r.content + r.padding + w
  {
    hide HeaderBytes, ParseHeader;
    var h := HeaderBytes(r.rtype, r.id, |r.content|, |r.padding|, r.reserved);
    HeaderRoundTrip(r.rtype, r.id, |r.content|, |r.padding|, r.reserved);
    FourPieces(h, r.content, r.padding, w);
    assert EncodeRecord(r) + w == h + r.content + r.padding + w;
  }

  // ---------------------------------------------------------------- parsing

  datatype Parsed = Whole(records: seq<Record>) | Broken

  /** The byte string starts with a complete version-1 record. */
  predicate StartsWhole(w: seq<byte>) {
    && |w| >= HEADER_LEN
    && var h := ParseHeader(w[..HEADER_LEN]);
    && h.version == VERSION_1
    && HEADER_LEN + h.contentLength + h.paddingLength <= |w|
  }

  function FirstRecord(w: seq<byte>): Record
    requires StartsWhole(w)
  {
    var h := ParseHeader(w[..HEADER_LEN]);
    var c := HEADER_LEN + h.contentLength;
    Record(h.rtype, h.id, w[HEADER_LEN..c], w[c..c + h.paddingLength], w[HEADER_LEN - 1])
  }

  /** Cuts a byte string into whole version-1 records; Broken when it is not one. */
  function ParseAll(w: seq<byte>): (p: Parsed)
    decreases |w|
  {
    if w == [] then Whole([])
    else if !StartsWhole(w) then Broken
    else
      var r := FirstRecord(w);
      var rest := ParseAll(w[HEADER_LEN + |r.content| + |r.padding|..]);
      if rest.Broken? then Broken else Whole([r] + rest.records)
  }

  lemma FirstOfEncoded(r: Record, w: seq<byte>)
    requires Legal(r)
    ensures StartsWhole(EncodeRecord(r) + w)
    ensures FirstRecord(EncodeRecord(r) + w) == r
  {
    RecordParts(r, w);
    FourPieces(HeaderBytes(r.rtype, r.id, |r.content|, |r.padding|, r.reserved), r.content, r.padding, w);
  }

  lemma {:induction false} ParseInvertsEncode(rs: seq<Record>)
    requires AllLegal(rs)
    ensures ParseAll(EncodeAll(rs)) == Whole(rs)
  {
    if rs != [] {
      var r, w := rs[0], EncodeAll(rs[1..]);
      FirstOfEncoded(r, w);
      FourPieces(HeaderBytes(r.rtype, r.id, |r.content|, |r.padding|, r.reserved), r.content, r.padding, w);
      ParseInvertsEncode(rs[1..]);
      assert [r] + rs[1..] == rs;
    }
  }

  lemma EncodeOfFirst(w: seq<byte>)
    requires StartsWhole(w)
    ensures Legal(FirstRecord(w))
    ensures var r := FirstRecord(w); EncodeRecord(r) == w[..HEADER_LEN + |r.content| + |r.padding|]
  {
    var r := FirstRecord(w);
    var h := w[..HEADER_LEN];
    ReencodeHeader(h);
    var c := HEADER_LEN + |r.content|;
    assert HeaderBytes(r.rtype, r.id, |r.content|, |r.padding|, r.reserved) == h;
    assert w[..c + |r.padding|] == h + w[HEADER_LEN..c] + w[c..c + |r.padding|];
  }

  lemma {:induction false} EncodeInvertsParse(w: seq<byte>)
    requires ParseAll(w).Whole?
    ensures AllLegal(ParseAll(w).records)
    ensures EncodeAll(ParseAll(w).records) == w
    decreases |w|
  {
    if w != [] {
      var r := FirstRecord(w);
      var end := HEADER_LEN + |r.content| + |r.padding|;
      EncodeOfFirst(w);
      EncodeInvertsParse(w[end..]);
      EncodeAllCons(r, ParseAll(w[end..]).records);
      SplitAt(w, end);
    }
  }

  lemma ReencodeHeader(h: seq<byte>)
    requires |h| == HEADER_LEN && h[0] == VERSION_1
    ensures var p := ParseHeader(h);
            && HeaderBytes(p.rtype, p.id, p.contentLength, p.paddingLength, h[7]) == h
            && p.id < 65536 && p.contentLength < 65536
  {
  }

  // ---------------------------------------------------------------- bodies

  /** MakeEndRequestBody: the 32-bit status big-endian, one protocol byte, three zeros. */
  function EndRequestBody(appStatus: int, protocolStatus: byte): (b: seq<byte>)
    ensures |b| == 8
  {
    [(appStatus / 0x100_0000) % 256, (appStatus / 0x1_0000) % 256, (appStatus / 0x100) % 256, appStatus % 256,
     protocolStatus, 0, 0, 0]
  }

  function EndRequest(id: nat, appStatus: int, protocolStatus: byte): Record {
    Plain(END_REQUEST, id, EndRequestBody(appStatus, protocolStatus), 0)
  }

  function UnknownType(t: byte): Record {
    Plain(UNKNOWN_TYPE, NULL_REQUEST_ID, [t, 0, 0, 0, 0, 0, 0, 0], 0)
  }

  /** MakeBeginRequestBody. */
  function BeginRequestBody(role: nat, keep: bool): (b: seq<byte>)
    requires role < 65536
    ensures |b| == 8
  {
    [role / 256, role % 256, if keep then 1 else 0, 0, 0, 0, 0, 0]
  }

  /** A C int: 32-bit two's complement. */
  predicate IsInt32(n: int) {
    -0x8000_0000 <= n < 0x8000_0000
  }

  function ToInt32(n: nat): int
    requires n < 0x1_0000_0000
  {
    if n < 0x8000_0000 then n else n - 0x1_0000_0000
  }

  /** The bridge's reading of an END_REQUEST body: shifts summed into an int. */
  function StatusOf(b: seq<byte>): int
    requires |b| == 8
  {
    ToInt32(Word(Word(Word(b[0], b[1]), b[2]), b[3]))
  }

  lemma StatusRoundTrip(n: int, p: byte)
    requires IsInt32(n)
    ensures StatusOf(EndRequestBody(n, p)) == n
  {
    var q1, q2, q3 := n / 0x100, n / 0x1_0000, n / 0x100_0000;
    assert q2 == q1 / 0x100 && q3 == q2 / 0x100 && -128 <= q3 < 128;
    assert n == Word(Word(Word(q3, q2 % 256), q1 % 256), n % 256);
    assert q3 % 256 == if q3 < 0 then q3 + 256 else q3;
  }

  // ---------------------------------------------------------------- the same in numerals

  /** Header size and length limit, record types, roles, protocol statuses, and the library's error codes. */
  lemma Numerals()
    ensures HEADER_LEN == 8 && MAX_LENGTH == 65535 && VERSION_1 == 1 && NULL_REQUEST_ID == 0 && EOF == -1
    ensures BEGIN_REQUEST == 1 && END_REQUEST == 3 && PARAMS == 4 && STDIN == 5 && STDOUT == 6 && STDERR == 7
    ensures DATA == 8 && GET_VALUES == 9 && GET_VALUES_RESULT == 10 && UNKNOWN_TYPE == 11
    ensures RESPONDER == 1 && AUTHORIZER == 2 && FILTER == 3 && REQUEST_COMPLETE == 0 && CANT_MPX_CONN == 1
    ensures UNSUPPORTED_VERSION == -2 && PROTOCOL_ERROR == -3 && PARAMS_ERROR == -4 && CALL_SEQ_ERROR == -5
  {
  }

  /** A record on the wire: version 1, type, id and length most significant byte first, padding length. */
  lemma RecordBytes(r: Record)
    requires Legal(r)
    ensures EncodeRecord(r)
            == [1, r.rtype, r.id / 256, r.id % 256, |r.content| / 256, |r.content| % 256, |r.padding|, r.reserved]
               + r.content + r.padding
  {
  }

  /** The eight bytes behind a header of type 3 are the 32-bit status, the protocol status, and three zeros. */
  lemma EndRequestBytes(id: nat, n: int, p: byte)
    requires id < 65536 && IsInt32(n)
    ensures var w := EncodeRecord(EndRequest(id, n, p));
            && |w| == 16 && w[..8] == [1, 3, id / 256, id % 256, 0, 8, 0, 0] && w[12..] == [p, 0, 0, 0]
            && var b3: int, b2: int, b1: int, b0: int := w[8], w[9], w[10], w[11];
               n == (if b3 < 128 then b3 else b3 - 256) * 16777216 + b2 * 65536 + b1 * 256 + b0
  {
    hide ToInt32;
    var q1, q2, q3 := n / 0x100, n / 0x1_0000, n / 0x100_0000;
    assert q2 == q1 / 0x100 && q3 == q2 / 0x100 && -128 <= q3 < 128;
    assert q3 % 256 == if q3 < 0 then q3 + 256 else q3;
    RecordBytes(EndRequest(id, n, p));
  }

  /** The answer to a management record of type `t`. */
  lemma UnknownTypeBytes(t: byte)
    ensures EncodeRecord(UnknownType(t)) == [1, 11, 0, 0, 0, 8, 0, 0, t, 0, 0, 0, 0, 0, 0, 0]
  {
    RecordBytes(UnknownType(t));
  }

  lemma BeginRequestBytes(id: nat, role: nat, keep: bool)
    requires id < 65536 && role < 65536
    ensures EncodeRecord(Plain(BEGIN_REQUEST, id, BeginRequestBody(role, keep), 0))
            == [1, 1, id / 256, id % 256, 0, 8, 0, 0, role / 256, role % 256, if keep then 1 else 0, 0, 0, 0, 0, 0]
  {
    RecordBytes(Plain(BEGIN_REQUEST, id, BeginRequestBody(role, keep), 0));
  }

  /** The record that ends a stream of type `t`. */
  lemma EmptyRecordBytes(t: byte, id: nat)
    requires id < 65536
    ensures EncodeRecord(Plain(t, id, [], 0)) == [1, t, id / 256, id % 256, 0, 0, 0, 0]
  {
    RecordBytes(Plain(t, id, [], 0));
  }
}
