# The FastCGI stream engine and its bridge, verified

A Dafny model of the FastCGI 1.0 library's stream engine (`libfcgi/fcgiapp.c`), of the CGI bridge that
is its peer (`cgi-fcgi/cgi-fcgi.c`), and of the select-driven dispatch table underneath the bridge
(`libfcgi/os_unix.c`). Three machines are proved against specifications that know nothing of buffers,
and are then put together end to end.

* **Wire format** (`Protocol`, `NameValue`, `Environment`, `Management`). Records and name-value pairs
  with their encoders and parsers, proved inverse to each other in both directions where both exist;
  the environment vector and its lookup; the answer to a variable query. The records either program
  makes, and what either makes of any record there can be, are stated in numerals and literal strings as well.
* **Input** (`Connection`, `ReaderSpec`, `InputStream`, `RecordStream`). `ReaderSpec.Future` says, for
  *any* finite input, well formed or not, what an input stream delivers, what is written back and how
  it ends. The class `Reader` is the library's bounded-buffer demultiplexer, with reads cut anywhere;
  each method's postcondition ties it to `Future`. So chunking cannot matter. `RecordStream` then
  evaluates `Future` on record sequences. Termination, and nesting at most one deep, are carried by the
  `decreases` clauses: under `eorStop` a call of `FillBuffProc` has measure 0 and cannot reach
  `ProcessHeader`, and every pass of its loop shortens the unread input.
* **Output** (`OutputStream`, `Response`). The class `Writer` frames, pads, flushes and closes;
  `Response.Streams` holds the reader and the two writers of a request on their one connection and
  keeps a ledger of what has been read and of what the wire shows of the calls made so far, for any
  interleaving of reads, writes, flushes and closes. The reader's answers may come between the writers'
  records.
* **Requests** (`Request`). `FCGX_Accept_r`, `FCGX_Finish_r` and `FCGX_Free` over arbitrary arrivals.
* **Bridge** (`BridgeRequest`, `BridgeResponse`). What `main` sends, the one-buffer stdin machine, and
  the incremental response parser. `BridgeRequest.Play` says with four values what any run of events
  comes to; the class `Forwarder`, with its buffer, pointers and pending flags, is proved to follow it.
* **End to end** (`EndToEnd`). `EndToEnd.Exchange` runs all of it: the bridge's request through the
  library's reader, an application's calls, and the library's response through the bridge.
  `EndToEnd.ExchangeByLoop` is the same with both sides of the bridge run by its event loop.
* **Dispatch** (`DispatchSpec`, `DispatchRuns`, `AsyncIo`). The table, its four descriptor sets and its
  counters as a value, `Board`, with what arming, closing, a callback, a pass of the dispatch loop and a
  call of `OS_DoIo` make of it; what all of these keep; and when callbacks halt the program. The class
  `Dispatcher` is proved to go from board to board exactly so.
* **Event loop** (`EventLoop`). The dispatcher with the bridge's three handlers as its callbacks, and their
  `ScheduleIo` arming it again. `EventLoop.RunOf` says what any turns, with anything ready and anything
  read or written in them, come to on both sides of the bridge.

Bytes are integers below 256; C `int` arithmetic is unbounded where the code cannot overflow it, and
the 16-bit request id, the 32-bit exit status, the 31-bit lengths and the 65536-byte buffer limit are
written out. The network appears as `Connection.Link`: what the peer will yet send, how its sending
ends, and what it has received. A read yields any positive number of the bytes to come; a write takes
any number of the bytes offered, none of them only finitely often, or fails. A connection may be
`reliable`, when no write fails, `prompt`, when no write is short, and `eager`, when no read is.

Where the code writes outside a variable, the model says so and goes no further: a stream stops with
`Overrun`, an attempt is `Lost`, the stdin machine is `overrun`, the response parser has `strayed`, the
dispatcher has a `halt`, and a pushback is `below` its buffer. Each of these is a case of the specification
with its exact condition, not a precondition (for `halt`: `DispatchRuns.ScriptHalts` of one callback and
`DispatchRuns.PassHalts` of a pass without closings, over the table and the scripts; `DispatchSpec.DoIoBoard`
of any call), and what is proved of whole runs (`Response.Streams.Run`,
`EndToEnd.Work`, `Request.Serve`, `AsyncIo.Dispatcher.DoIo`) is conditional on none of them having happened.

## Where the code and its promises differ

* A PARAMS stream that *fails* exactly between two pairs is accepted as if it had ended, wherever in
  the records the connection ends (`EndToEnd.CutShortRequest`: if and only if;
  `EndToEnd.BareBeginIsAccepted`: the shortest instance).
* An empty record of another request leaves `skip` set, and the next content is lost
  (`RecordStream.OtherRequestsRecord`: if and only if).
* The content of an unknown management record is delivered to the application
  (`RecordStream.UnknownManagementRecord`: if and only if).
* `SetReaderType` forgets padding that is still owed, so a record that ends a phase must be unpadded
  (`RecordStream.PhaseEndsUnpadded`: if and only if).
* An unpadded variable query is not answered before another byte arrives, and the answer overruns its
  64-byte array when the known variables are asked for too often (`RecordStream.QueryRecord` and
  `RecordStream.QueryIsAnswered`: if and only if; `RecordStream.AskedTooOften`: FCGI_MAX_CONNS four times).
* A pair whose name contains `=` answers to the part before it as well
  (`Environment.AnswersToOwnNameOnly`: if and only if).
* `SetReaderType` leaves `stopUnget` where it was, so that pushbacks before the first read of a phase can
  run below the buffer (`InputStream.Reader.UnGetAll`: if and only if; `EndToEnd.StalePushback`: a FILTER
  request whose STDIN ends with a byte that comes late).
* The bridge cannot resume from a read that ends inside a header or an END_REQUEST body, because later
  bytes are copied to whole-struct offsets (`BridgeResponse.InsideAtFirst`, `BridgeResponse.TwoReads` and
  `BridgeResponse.ResponseInAnyChunks`: if and only if).
* A last read of standard input that leaves fewer than eight bytes of the buffer makes the end-of-stream
  header go behind it (`BridgeRequest.Forwarder.WebServerReadHandler`: if and only if;
  `BridgeRequest.LastReadTooLong`: CONTENT_LENGTH 8184 read at once).
* `OS_Close` does not adjust the counters of posted operations, after which select is never called again
  (`DispatchSpec.CloseKeeps`: exactly the posted ones stay counted; `AsyncIo.Starve`: two reads are ready
  in one call of OS_DoIo, and the callback of the first closes the second).
* `OS_Close` of a descriptor that the table does not cover indexes behind it
  (`AsyncIo.Dispatcher.Close`: if and only if; `AsyncIo.CloseUncovered`: descriptor 8 with the first table).
* The bridge gives up, with whatever errno holds, when its first write is a short one
  (`BridgeRequest.SendPreamble`: it proceeds if and only if that write was whole and every string has an `=`).

## Model

| member | source | states |
|---|---|---|
| Protocol.HeaderRoundTrip | libfcgi/fcgiapp.c:1238-1256 | the eight bytes MakeHeader makes read back as its arguments, cut to the widths of their fields |
| Protocol.RecordParts | libfcgi/fcgiapp.c:1637-1641 | in front of any continuation, an encoded record's header, content and padding are found again where the header says |
| Protocol.ParseInvertsEncode | doc/fcgi-spec.html:350-370 | parsing the concatenated encodings of any legal records gives those records |
| Protocol.EncodeInvertsParse | doc/fcgi-spec.html:350-370 | any byte string that parses as whole records is the encoding of exactly those records, all legal |
| Protocol.StatusRoundTrip | cgi-fcgi/cgi-fcgi.c:315-318 | the bridge reads back from an END_REQUEST body every 32-bit exit status the library put there, negative ones included |
| Protocol.Numerals | include/fastcgi.h:34-105 | header size, length limit, record types, roles and protocol statuses are the specification's numbers; the library's error codes are -2 to -5 |
| Protocol.RecordBytes | include/fastcgi.h:23-32 | an encoded record is 1, type, id, length, padding length and the reserved byte, most significant bytes first, then content and padding |
| Protocol.EndRequestBytes | libfcgi/fcgiapp.c:1267-1280 | END_REQUEST on the wire: type 3, and behind the header four bytes whose signed big-endian value is the exit status, the protocol status and three zeros |
| Protocol.UnknownTypeBytes | libfcgi/fcgiapp.c:1290-1297 | the answer to an unknown management record, byte for byte |
| Protocol.BeginRequestBytes | cgi-fcgi/cgi-fcgi.c:137-149 | BEGIN_REQUEST on the wire, byte for byte |
| Protocol.EmptyRecordBytes | libfcgi/fcgiapp.c:1238-1256 | the record that ends a stream, byte for byte |
| NameValue.BuildNameValueHeader | cgi-fcgi/cgi-fcgi.c:557-583 | the two lengths are written in their short or long form, at most 8 bytes, and nothing behind them is touched |
| NameValue.LengthRoundTrip | libfcgi/fcgiapp.c:1168-1200 | every length below INT_MAX reads back from its encoding, whatever follows |
| NameValue.LengthForms | libfcgi/fcgiapp.c:1167-1196 | for every first byte and whatever follows: below 128 it is the length; from 128 on it takes three more bytes, which may say any length, however small, but 2147483647 |
| NameValue.PairOfLengths | libfcgi/fcgiapp.c:1197-1222 | whatever forms its two lengths have, a pair is the bytes behind them that they say, if those are there |
| NameValue.PairRoundTrip | libfcgi/fcgiapp.c:1161-1227 | one encoded pair in front of anything is read as that pair, and reading goes on exactly behind it |
| NameValue.DecodeEncode | libfcgi/fcgiapp.c:1161-1227 | the concatenated encodings of any pairs decode to the same pairs, in order, without error |
| NameValue.DecodeEncodeThen | libfcgi/fcgiapp.c:1161-1227 | pairs decode the same whatever bytes follow, and what follows decodes as if it stood alone |
| NameValue.CutPair | libfcgi/fcgiapp.c:1173-1222 | a pair cut short anywhere inside is not stored, and is reported as a truncation |
| NameValue.TruncationKeepsEarlierPairs | libfcgi/fcgiapp.c:1168-1225 | a stream cut inside a pair stores exactly the complete earlier pairs, then fails |
| NameValue.PrefixKeepsLengths | libfcgi/fcgiapp.c:1173-1200 | cutting bytes off never turns a content without an over-long length into one with it |
| NameValue.ReencodeNeverLonger | libfcgi/fcgiapp.c:1161-1227 | for any bytes, the decoded pairs re-encode to no more bytes than were read, and decode to themselves |
| Environment.Params.constructor | libfcgi/fcgiapp.c:1046-1055 | an empty, NULL-terminated vector of the length asked for |
| Environment.Params.PutParam | libfcgi/fcgiapp.c:1099-1111 | the vector holds the earlier strings and the new one, followed by NULL, with room to spare; it doubles exactly when it would be full |
| Environment.GetParam | libfcgi/fcgiapp.c:1126-1141 | NULL arguments give NULL; otherwise the result is the value, up to its first NUL, of the first entry that strncmp and the = test accept |
| Environment.EntryBinds | libfcgi/fcgiapp.c:1135-1139 | an entry binds a name without '=' exactly when its pair has that name, or a name that extends it past an '=' |
| Environment.AnswersToOwnNameOnly | libfcgi/fcgiapp.c:1135-1139 | a pair answers to its own name alone if and only if that name contains no '=' |
| Environment.LookupFindsFirstPair | libfcgi/fcgiapp.c:1126-1141 | lookup in the vector of any pairs with such names gives the value of the first pair with the name, as a C string |
| Environment.FirstEntryWins | libfcgi/fcgiapp.c:2270-2272 | the entry put in first answers for its name whatever is put in later |
| Management.AlignInt8 | libfcgi/fcgiapp.c:1309-1311 | the least multiple of 8 that is not smaller |
| Management.BodyLength | libfcgi/fcgiapp.c:1507-1526 | the answer's length in terms of how often each known variable is asked for |
| Management.AnswerFits | libfcgi/fcgiapp.c:1496-1532 | answer, padding and trailing NUL fit the 64-byte array if and only if 17a + 16b + 18c <= 56 for the three counts |
| Management.FitsSoFar | libfcgi/fcgiapp.c:1507-1526 | a prefix of a fitting query fits, so the first piece that does not fit decides |
| Management.AskedOnceFits | libfcgi/fcgiapp.c:1496-1532 | asking each known variable at most once always fits, in a legal record |
| Management.AnswerDecodes | libfcgi/fcgiapp.c:1507-1526 | the answer decodes with the same pair codec to the known names asked, in order, with their values |
| Management.AnswerInNumerals | libfcgi/fcgiapp.c:1506-1534 | for every list of stored strings the answer is a record of type 10 for id 0, zero-padded to a multiple of eight, that decodes to the asked names among the three literal ones, in order, with values 1, 1 and 0 |
| Management.AllThreeAnswered | libfcgi/fcgiapp.c:1506-1534 | the answer to the three names asked once each, byte for byte |
| Management.CutNameOfEntry | libfcgi/fcgiapp.c:1508-1511 | for proper names, the name compared is the name that was sent |
| Connection.Link.WriteItAll | libfcgi/fcgiapp.c:1399-1411 | however writes are cut, writes of nothing included, success means all bytes went out once and in order; failure is recorded and only happens on an unreliable connection |
| ReaderSpec.FutureContent | libfcgi/fcgiapp.c:1691-1705 | taking any part of the owed content first changes nothing about what is delivered in all |
| ReaderSpec.FuturePadding | libfcgi/fcgiapp.c:1710-1717 | the same for padding |
| ReaderSpec.RepliesAreLegal | libfcgi/fcgiapp.c:1491-1606 | on any input every record written back is one its header can carry |
| InputStream.Reader.constructor | libfcgi/fcgiapp.c:1796-1851 | a new reader owes nothing, has no error, and will see the connection's bytes from the first |
| InputStream.Reader.Refill | libfcgi/fcgiapp.c:1677-1686 | reading into the empty buffer loses no byte; the end of the connection becomes the stream's first error |
| InputStream.Reader.TakeContent | libfcgi/fcgiapp.c:1691-1705 | content is delivered in place, or stepped over with `skip` taken back at its end; what is still to come is unchanged |
| InputStream.Reader.TakePadding | libfcgi/fcgiapp.c:1710-1717 | padding is consumed, and nothing else |
| InputStream.Reader.Gather | libfcgi/fcgiapp.c:1673-1737 | one pass: something is told to the client, or strictly fewer bytes are unread and what is to come, partial header included, is unchanged |
| InputStream.Reader.FillBuffProc | libfcgi/fcgiapp.c:1666-1784 | on any input, for any read sizes: terminates, keeps rdNext <= stop <= buffStop, and what it delivered, answered and left to come, or the overrun it ended in, are together exactly what the specification promised before the call; unless something was answered, the pushback limit stays and the reader has only moved on in its buffer, or has read |
| InputStream.Reader.Interpret | libfcgi/fcgiapp.c:1738-1782 | each of ProcessHeader's verdicts leaves the state in which the specification goes on |
| InputStream.Reader.ProcessHeader | libfcgi/fcgiapp.c:1630-1655 | the verdict and the remaining content and padding account for the specified meaning of the header |
| InputStream.Reader.ProcessBeginRecord | libfcgi/fcgiapp.c:1569-1606 | a first BEGIN_REQUEST sets id, role and keep flag from its body; a later one gets one CANT_MPX_CONN answer and is skipped; a malformed one is a protocol error; the id is in force even if the body then fails |
| InputStream.Reader.ReadBeginBody | libfcgi/fcgiapp.c:1594-1605 | the role and flags come from the eight body bytes, wherever reads cut them |
| InputStream.Reader.ProcessManagementRecord | libfcgi/fcgiapp.c:1491-1549 | a query gets the one answer its pairs ask for, or overruns if that does not fit; an unknown type gets one UNKNOWN_TYPE; an error is a protocol error |
| InputStream.ComposeAnswer | libfcgi/fcgiapp.c:1507-1532 | in a 64-byte array the loop over the stored strings builds exactly the specified answer record, padded to 8, and overruns if and only if the answer does not fit |
| InputStream.Reader.GetChar | libfcgi/fcgiapp.c:102-120 | the next byte of the stream, or EOF exactly when the stream is closed; answers due on the way are written |
| InputStream.Reader.GetStr | libfcgi/fcgiapp.c:137-175 | the next bytes of the stream, a short count exactly when the stream is closed, for any n |
| InputStream.Reader.GetBytes | libfcgi/fcgiapp.c:102-120 | the block read done by GetChar calls has the same contract |
| InputStream.SameReading | libfcgi/fcgiapp.c:102-175 | two ways of reading equally many bytes from one point give the same bytes and leave the same stream and the same total of answers |
| InputStream.Reader.UnGetChar | libfcgi/fcgiapp.c:231-240 | EOF in exactly the three cases of the code; otherwise the unread stream has the byte in front, unless rdNext is at the start of the buffer |
| InputStream.Reader.UnGetAll | libfcgi/fcgiapp.c:231-240 | pushing back any bytes in a row goes below the buffer if and only if stopUnget lies ahead of rdNext and there are more of them than rdNext; otherwise exactly so many are taken |
| InputStream.Reader.Peek | libfcgi/fcgiapp.c:222-240 | pushing back the byte just read restores the unread stream |
| InputStream.Reader.SetReaderType | libfcgi/fcgiapp.c:1887-1899 | the new stream starts at the first unread byte, owing nothing |
| InputStream.Reader.StartFilterData | libfcgi/fcgiapp.c:2319-2331 | succeeds exactly on a FILTER request at the end of STDIN, and then DATA starts at the next byte; otherwise CALL_SEQ_ERROR |
| InputStream.Reader.ReadParams | libfcgi/fcgiapp.c:1161-1227 | stores the decoded pairs of the stream's bytes behind what was stored, returns 0 exactly when decoding is complete, and leaves the specified error |
| InputStream.Reader.ReadParamsStream | libfcgi/fcgiapp.c:2273-2293 | from the end of BEGIN_REQUEST to the start of STDIN: the environment of the PARAMS stream, and no byte lost between the phases |
| InputStream.Reader.ReadBegin | libfcgi/fcgiapp.c:2249-2254 | BEGIN_REQUEST is found exactly when the specification finds it first, and reading goes on behind it |
| InputStream.HangUp | libfcgi/fcgiapp.c:1676-1683 | a connection that ends before a whole header has come fails the stream with -3, and one that breaks with its errno |
| RecordStream.RegularRecord | libfcgi/fcgiapp.c:1491-1784 | a regular record in front of anything delivers its content if it is this stream's, gets its answer if one is due, and leaves no other trace |
| RecordStream.StreamOfRecords | libfcgi/fcgiapp.c:1666-1784 | for every regular record sequence, queries only if their answers fit, up to the first empty own record: the bytes are the concatenated own contents and the answers are the dues, in order, whatever the reads |
| RecordStream.StreamCutShort | libfcgi/fcgiapp.c:1666-1784 | for a connection that ends at any byte of any regular records: exactly the contents that have arrived are delivered, exactly the answers due by then are written, and the stream fails with the connection's error |
| RecordStream.QueryRecord | libfcgi/fcgiapp.c:1500-1549 | a well-formed query in front of anything: it waits if unpadded with nothing behind, overruns if its answer does not fit, and is answered otherwise |
| RecordStream.QueryIsAnswered | libfcgi/fcgiapp.c:1500-1549 | a well-formed query is answered if and only if its answer fits and a byte of padding or of what follows arrives |
| RecordStream.OtherVersion | libfcgi/fcgiapp.c:1634-1636 | any header whose first byte is not 1 ends the stream with error -2, unless an earlier error is recorded |
| RecordStream.OwnRecord | libfcgi/fcgiapp.c:1651-1654 | any record of the stream's own id: of another type than the stream's it is error -3, empty it is the end of the stream, otherwise its content is delivered, if not to be skipped |
| RecordStream.ForeignRecord | libfcgi/fcgiapp.c:1648-1650 | any record of another id: its content is skipped, and if it has none the next record's is |
| RecordStream.AnyBegin | libfcgi/fcgiapp.c:1569-1606 | any BEGIN_REQUEST: id 0 or a length other than eight is error -3; during a request it is refused and skipped; otherwise it begins the request with what its bytes say, unless content is to be skipped |
| RecordStream.RefusalBytes | libfcgi/fcgiapp.c:1582-1592 | the refusal of a second BEGIN_REQUEST, byte for byte: its own id, status 0 and protocol status 1 |
| RecordStream.UnknownRecord | libfcgi/fcgiapp.c:1535-1541 | any management record that is not a query is answered with type 11 and its own type, and its content is not consumed |
| RecordStream.AnyQuery | libfcgi/fcgiapp.c:1499-1548 | any query that has arrived whole: malformed it is error -4, with an error recorded that one; otherwise it overruns or is answered |
| RecordStream.SkippedQuery | libfcgi/fcgiapp.c:1499-1548 | a query whose content is to be skipped gets an empty answer |
| RecordStream.BeganSomewhere | libfcgi/fcgiapp.c:1596-1606 | on any input, if a request begins, then with a BEGIN_REQUEST among the bytes that came, with its id, flag and role, and reading goes on right behind that |
| RecordStream.EofNeedsHeader | libfcgi/fcgiapp.c:1727-1737 | a stream cannot end well with less than a header to come |
| RecordStream.AskedTooOften | libfcgi/fcgiapp.c:1496-1526 | a legal query of 64 bytes, FCGI_MAX_CONNS four times, overruns the array |
| RecordStream.BeginRecord | libfcgi/fcgiapp.c:1569-1606 | the first BEGIN_REQUEST yields its id, keep flag and role, with padding left to the next phase |
| RecordStream.OtherRequestsRecord | libfcgi/fcgiapp.c:1694-1705 | another request's record leaves no trace if and only if it has content |
| RecordStream.UnknownManagementRecord | libfcgi/fcgiapp.c:1534-1547 | an unknown management record is answered and otherwise leaves no trace if and only if it is empty |
| RecordStream.PhaseEndsUnpadded | libfcgi/fcgiapp.c:1893-1896 | zero padding behind the end of a phase is harmless if and only if there is none |
| OutputStream.Writer.constructor | libfcgi/fcgiapp.c:1796-1851 | for every requested length and alignment the buffer is a multiple of 8 between 24 and 65536 bytes, with room for a header reserved |
| OutputStream.FrameIsFramed | libfcgi/fcgiapp.c:1434-1449 | what fits the buffer makes a record with its content whole, padding under 8 that also fits, and a total length divisible by 8 |
| OutputStream.Writer.FrameBuffer | libfcgi/fcgiapp.c:1434-1449 | the buffer holds the encoding of the framed content, or nothing when there is none |
| OutputStream.Writer.EmptyBuffProc | libfcgi/fcgiapp.c:1423-1467 | without a write error the waiting content is sent as one record, with the closing records behind it when closing, and there is room again |
| OutputStream.Writer.WriteCloseRecords | libfcgi/fcgiapp.c:1363-1395 | exactly the specified closing bytes follow: end-of-stream unless an unused STDERR, END_REQUEST from the last writer |
| OutputStream.Writer.PutStr | libfcgi/fcgiapp.c:304-335 | terminates; without a write error all bytes are taken in, as contents of whole records plus what waits; a closed stream takes none |
| OutputStream.Writer.PutChar | libfcgi/fcgiapp.c:276-287 | the same for one byte, cut to 8 bits |
| OutputStream.Writer.FFlush | libfcgi/fcgiapp.c:910-916 | nothing waits any more, nothing is added, and no empty record is sent |
| OutputStream.Writer.FClose | libfcgi/fcgiapp.c:935-952 | the first call sends the waiting content and the closing records and gives up the writer's vote; later calls change nothing |
| Response.Streams.constructor | libfcgi/fcgiapp.c:2293-2298 | the streams as FCGX_Accept_r leaves them: nothing sent by them, the input stream unread |
| Response.Streams.Write | libfcgi/fcgiapp.c:276-335 | any put or flush on either stream keeps the ledger of both |
| Response.Streams.CloseStream | libfcgi/fcgiapp.c:935-952 | any close, repeated or not, keeps the ledger of both |
| Response.Streams.SetStatus | libfcgi/fcgiapp.c:2347-2351 | the exit status in force changes, and nothing on the wire |
| Response.Streams.ReadInput | libfcgi/fcgiapp.c:137-175 | a read between any other calls hands over the next promised bytes, and its answers are accounted for apart from the writers' records |
| Response.LedgerWrites | libfcgi/fcgiapp.c:1423-1467 | records sent for one stream extend its contents and leave the other stream's alone |
| Response.LedgerCloses | libfcgi/fcgiapp.c:1363-1395 | closing adds the stream's one empty record, and END_REQUEST if and only if it is the second close |
| Response.LedgerCompletes | libfcgi/fcgiapp.c:1363-1467 | with both streams closed the ledger is a complete response |
| Response.NothingPutAtAll | libfcgi/fcgiapp.c:1363-1395 | with nothing put on either stream, both closed leave exactly an empty STDOUT record and END_REQUEST on the wire, byte for byte |
| Response.LedgerFinishes | libfcgi/fcgiapp.c:2054-2057 | closing whichever streams are open, err first, always ends in a complete response |
| Response.Streams.WhenFinished | libfcgi/fcgiapp.c:2044-2063 | unless an answer has overrun, what FCGX_Finish_r adds makes the writers' records a complete response, woven with the reader's answers |
| Response.Streams.WireWhenClosed | libfcgi/fcgiapp.c:1363-1467 | then, unless an answer has overrun, the wire parses into whole records, a complete response for what was put, woven with the reader's answers in their order |
| Response.Streams.Run | libfcgi/fcgiapp.c:102-952 | for every program of reads, puts, flushes, closes and status settings without write errors, unless it asks for more than the input delivers before an answer overruns: what is read is the promised bytes as far as asked for; once both outputs are closed the wire parses, each stream's contents are the bytes put before its close, no empty record precedes a close, an unused STDERR sends nothing, and one END_REQUEST with the status in force comes last |
| BridgeResponse.ResponseInOnePiece | cgi-fcgi/cgi-fcgi.c:247-343 | a complete response leaves its two contents on stdout and stderr, and its status |
| BridgeResponse.OtherVersion | cgi-fcgi/cgi-fcgi.c:263-265 | any header whose first byte is not 1 ends the bridge with -2 |
| BridgeResponse.AnyRecord | cgi-fcgi/cgi-fcgi.c:263-331 | any record in front of anything: of another id it ends the bridge with -3 at once; with a byte behind its header it is taken if and only if its type is 6 or 7, or 3 with eight bytes of content of which the fifth is zero, and ends the bridge with -3 otherwise |
| BridgeResponse.AnyEndRequest | cgi-fcgi/cgi-fcgi.c:292-323 | END_REQUEST with any status: the exit status is set to it if the protocol status is 0, and otherwise the bridge ends with -3 |
| BridgeResponse.DemuxInTwo | cgi-fcgi/cgi-fcgi.c:247-343 | two reads in a row do what one read of both would, from any state, whenever the first leaves no copy half done |
| BridgeResponse.InsideAtFirst | cgi-fcgi/cgi-fcgi.c:258 | the destination of a copy lies inside the header, or the body, if and only if no earlier part was copied |
| BridgeResponse.NotResumable | cgi-fcgi/cgi-fcgi.c:252-322 | from any state with a part copied the next bytes go astray; from inside END_REQUEST padding they end the bridge |
| BridgeResponse.ResumableExactlyAtSafeCuts | cgi-fcgi/cgi-fcgi.c:252-322 | after any prefix of sound records the state is resumable if and only if the prefix does not end inside a header or an END_REQUEST body |
| BridgeResponse.TwoReads | cgi-fcgi/cgi-fcgi.c:252-322 | two reads of any sound records do what one would if and only if the first ends at a safe place; otherwise the second goes astray |
| BridgeResponse.FeedIsDemux | cgi-fcgi/cgi-fcgi.c:219-345 | any number of reads does what one read of all would if they all end at safe places, and goes astray otherwise |
| BridgeResponse.ResponseInAnyChunks | cgi-fcgi/cgi-fcgi.c:219-345 | a complete response in any chunks leaves exactly its contents and status if and only if no chunk but the last ends inside a header or the END_REQUEST body |
| BridgeResponse.Bridge.GetPtr | cgi-fcgi/cgi-fcgi.c:90-97 | at most n bytes, as far as there are, are handed out and no longer unread |
| BridgeResponse.Bridge.TakeHeader | cgi-fcgi/cgi-fcgi.c:252-271 | for any bytes: a partial header is kept, a second part goes astray, a wrong version or request id ends the bridge, and otherwise the record's lengths are owed |
| BridgeResponse.Bridge.TakeEndRequest | cgi-fcgi/cgi-fcgi.c:295-322 | for any bytes: a body of the wrong length or protocol status ends the bridge, a partial body is kept, a second part goes astray, and otherwise the status is set |
| BridgeResponse.Bridge.AppServerReadHandler | cgi-fcgi/cgi-fcgi.c:219-345 | for every outcome of the read and every buffer: the exit code of an error or an early end, or what the whole-buffer specification gives |
| BridgeRequest.SendPreamble | cgi-fcgi/cgi-fcgi.c:845-874 | unless it exits, main has sent BEGIN_REQUEST, the environment's pairs in framed PARAMS records, and one empty PARAMS record, and no END_REQUEST; on a reliable connection it proceeds if and only if its first write was whole and every string has an = |
| BridgeRequest.BeginBytes | cgi-fcgi/cgi-fcgi.c:845-848 | the bridge's BEGIN_REQUEST, byte for byte: request 1, role 1, no flags |
| BridgeRequest.StdinBytesOnWire | cgi-fcgi/cgi-fcgi.c:356-397 | its STDIN records and the one that ends them, byte for byte |
| BridgeRequest.SendEnvironment | cgi-fcgi/cgi-fcgi.c:856-872 | proceeds only if every string has an '=', having put exactly the encoded pairs of all strings |
| BridgeRequest.PutSetting | cgi-fcgi/cgi-fcgi.c:857-871 | one string's pair header, name and value go in as the encoded pair |
| BridgeRequest.SplitSetting | cgi-fcgi/cgi-fcgi.c:857-861 | the pair of a string has a name without '=' and makes the same string again |
| BridgeRequest.Forwarder.constructor | cgi-fcgi/cgi-fcgi.c:878-886 | the event loop starts with the invariant, the end already queued when there is nothing to read |
| BridgeRequest.Forwarder.WriteStdinEof | cgi-fcgi/cgi-fcgi.c:356-366 | the first call appends one empty STDIN record, later calls nothing; it goes behind the buffer if and only if fewer than eight bytes are left |
| BridgeRequest.Forwarder.WebServerReadHandler | cgi-fcgi/cgi-fcgi.c:380-403 | for every count: the asserts hold; an error exits; the read becomes one STDIN record, an empty read or the last one brings the end of the stream exactly once; the buffer is overrun if and only if a last read leaves fewer than eight bytes |
| BridgeRequest.Forwarder.AppServerWriteHandler | cgi-fcgi/cgi-fcgi.c:417-438 | for every count: the asserts hold; an error exits; a partial write loses and reorders nothing |
| BridgeRequest.Forwarder.ScheduleIo | cgi-fcgi/cgi-fcgi.c:454-502 | re-establishes: a pending stdin read means an empty buffer at its start and no pending write |
| BridgeRequest.Forwarder.Run | cgi-fcgi/cgi-fcgi.c:356-502 | over every sequence of events: the machine is exactly where the specification's course of those events leads, an event that cannot happen is refused, and at rest everything read has been received, with one empty record last |
| BridgeRequest.Forwarder.Handle | cgi-fcgi/cgi-fcgi.c:380-502 | one event is possible exactly when something is pending for it, and does what the specification says |
| BridgeRequest.PlayTakesAll | cgi-fcgi/cgi-fcgi.c:380-403 | a course that goes on has read exactly the bytes of its events, and is done if and only if CONTENT_LENGTH bytes came or an end of file |
| BridgeRequest.LastReadTooLong | cgi-fcgi/cgi-fcgi.c:363-399 | CONTENT_LENGTH 8184, read at once, overruns the buffer |
| Request.Acceptor.constructor | libfcgi/fcgiapp.c:2092-2105 | no connection is held |
| Request.Acceptor.Free | libfcgi/fcgiapp.c:2065-2080 | gives up the streams, and shuts the connection exactly when asked to and one is open |
| Request.Acceptor.Finish | libfcgi/fcgiapp.c:2044-2063 | closes err, then out, whichever are open, with exactly their closing records on the wire; the connection stays open if and only if it is to be kept and no stream has failed |
| Request.Acceptor.Try | libfcgi/fcgiapp.c:2249-2283 | one attempt succeeds exactly when the specification accepts the connection's bytes, unless it is lost to an overrun; it leaves the role and environment specified, STDIN at its first byte, and the answers due on the wire; failed or not, it leaves the request id of the BEGIN_REQUEST it has seen, or the old one |
| Request.Acceptor.Accept | libfcgi/fcgiapp.c:2221-2299 | a kept connection is tried first, with the request id as it was, and taken if and only if its bytes are acceptable; then arrivals are opened and shut in turn up to one that is accepted or a refusal, each judged by its bytes and by the request id that the attempt before it has left; returns with the accepted request on the one open connection and fresh streams, or with an error and none open; all unless an answer has overrun |
| Request.Acceptor.Perform | libfcgi/fcgiapp.c:2044-2299 | each call makes its step, unless with it an answer has overrun, and says exactly whether one has |
| Request.RefusalInNumerals | libfcgi/fcgiapp.c:2238-2242 | a failing FCGX_Accept_r returns the negated errno of the refusal it met, or -9999 |
| Request.OneAtATime | libfcgi/fcgiapp.c:2228-2288 | in a log that replays well every opening finds nothing open |
| Request.Serve | libfcgi/fcgiapp.c:2044-2299 | for every program of Accept, Finish and Free calls against every sequence of arrivals, up to an attempt that is lost: each call changes the connection held, the log and the arrivals exactly as its step says, held and new connections being judged by their bytes and the request id in force; connections open one at a time and none is shut twice |
| EndToEnd.PhaseHandoff | libfcgi/fcgiapp.c:1887-1899 | a phase delivers exactly its own stream and hands over at the first byte of the next |
| EndToEnd.AcceptsRecords | libfcgi/fcgiapp.c:2249-2293 | a well-formed request is accepted with its id, keep flag, role, decoded environment and due answers |
| EndToEnd.FilterPhases | libfcgi/fcgiapp.c:2250-2331 | on one connection PARAMS, STDIN and DATA each deliver exactly their own contents |
| EndToEnd.RequestEndToEnd | cgi-fcgi/cgi-fcgi.c:845-885 | what the bridge sends is accepted with exactly FCGI_ROLE=RESPONDER followed by its environment, and STDIN is exactly the bytes read |
| EndToEnd.CutShortRequest | libfcgi/fcgiapp.c:2249-2280 | a request cut short at any byte is accepted if and only if BEGIN_REQUEST has arrived and the PARAMS contents that have arrived end between pairs; it then has those pairs and the connection's error; the request id is its own as soon as the header of BEGIN_REQUEST has arrived |
| EndToEnd.BareBeginIsAccepted | libfcgi/fcgiapp.c:2249-2280 | a lone BEGIN_REQUEST is accepted with an empty environment |
| EndToEnd.RoleIsReported | libfcgi/fcgiapp.c:2255-2274 | for every accepted input, looking up FCGI_ROLE gives the role of BEGIN_REQUEST |
| EndToEnd.RoleInEnvironment | libfcgi/fcgiapp.c:2255-2274 | for every accepted input there is a BEGIN_REQUEST in it whose bytes are the id, flag and role accepted, and the first environment entry and the value of FCGI_ROLE are the literal strings for roles 1, 2 and 3 |
| EndToEnd.FirstBeginDecides | libfcgi/fcgiapp.c:2249-2272 | a connection starting with any BEGIN_REQUEST is accepted only with an id, an eight-byte body and role 1, 2 or 3, and then with what the body says |
| EndToEnd.ServeBridge | libfcgi/fcgiapp.c:2249-2293 | the reader object, fed the bridge's wire, produces that environment and that input |
| EndToEnd.ServeFilter | libfcgi/fcgiapp.c:2249-2331 | the same for a FILTER request read through StartFilterData, even when one read holds several phases |
| EndToEnd.Relay | cgi-fcgi/cgi-fcgi.c:219-345 | the handler object, called once for each chunk of a complete response, leaves its contents and status if and only if the chunks end at safe places |
| EndToEnd.Send | cgi-fcgi/cgi-fcgi.c:845-889 | the bridge sends its environment and exactly the bytes that come on standard input, for every sequence of events that comes to rest |
| EndToEnd.Receive | libfcgi/fcgiapp.c:2221-2299 | FCGX_Accept_r on that wire succeeds on a reliable connection, with that environment and that input |
| EndToEnd.Work | libfcgi/fcgiapp.c:102-952 | on the streams FCGX_Accept_r made, whatever has been sent before and is answered meanwhile, any calls and FCGX_Finish_r read the input as far as asked for and leave a complete response for what was put, unless more is asked for than comes before an answer overruns |
| EndToEnd.Exchange | cgi-fcgi/cgi-fcgi.c:845-900 | on reliable connections, for every environment, every run of events at rest, every program of calls and every sequence of read sizes: if the bridge's first write was whole the application sees the environment and reads the bytes of standard input, and the bridge's stdout, stderr and exit status are what the application put there, if and only if its reads end at safe places |
| EndToEnd.SendByLoop | cgi-fcgi/cgi-fcgi.c:845-893 | the event loop, over any turns that leave its stdin side at rest, has sent the environment and exactly the bytes that came on standard input |
| EndToEnd.ExchangeByLoop | cgi-fcgi/cgi-fcgi.c:845-900 | the whole exchange by the event loop, standard input and answer interleaved in any way: the application sees the environment and reads the bytes of standard input, and if the bytes the loop has read are those the library sent, its output and exit status are the application's, if and only if its reads end at safe places |
| EndToEnd.StalePushback | libfcgi/fcgiapp.c:1887-1899 | a run from BEGIN_REQUEST to FCGX_StartFilterData after which two pushbacks go below the buffer |
| DispatchSpec.SlotsApart | libfcgi/os_unix.c:82-83 | no two (descriptor, direction) pairs share a slot |
| DispatchSpec.Grown | libfcgi/os_unix.c:624-637 | growth keeps every entry and adds as many unused ones |
| DispatchSpec.GrownTo | libfcgi/os_unix.c:674-676 | the table covers the slot, live entries stay, new ones are unused, and it does not grow without need or beyond twice the slot |
| DispatchSpec.ArmFollows | libfcgi/os_unix.c:663-737 | arming a free slot keeps table, sets, tickets and counters in step, and leaves every other operation and all that is due as it was |
| DispatchSpec.DropKeeps | libfcgi/os_unix.c:763-774 | closing one direction keeps them in step, frees the slot and retires its ticket |
| DispatchSpec.CloseKeeps | libfcgi/os_unix.c:755-779 | closing a covered descriptor keeps them in step, the counters exceeding what is posted by exactly the operations that were posted when closed |
| DispatchSpec.CloseFollows | libfcgi/os_unix.c:755-779 | and every operation on another descriptor stays in its slot; what was due is due or closed |
| DispatchSpec.FireKeeps | libfcgi/os_unix.c:912-927 | calling a posted callback keeps them in step; its ticket is called once and for all |
| DispatchSpec.DueAfterFire | libfcgi/os_unix.c:912-927 | what is due loses exactly the ticket called |
| DispatchSpec.ScriptFollows | libfcgi/os_unix.c:919-945 | any callback that does not halt the program: every ticket ever given out stays in use in one slot or retired once; what is not retired is unchanged in its slot; each arming gives out one ticket; nothing is called |
| DispatchSpec.PassFollows | libfcgi/os_unix.c:908-947 | a whole pass, with callbacks arming and closing anything and maxFd moving either way: it leaves nothing posted, everything that was due called or closed, and every other operation in its slot |
| DispatchSpec.DoIoFollows | libfcgi/os_unix.c:852-949 | a call of OS_DoIo: the callbacks called are exactly those posted or found ready and not closed meanwhile, each once and none armed in this call; every ticket given out in it is in use or closed; the counters count only what closing has lost |
| DispatchRuns.ScriptUses | libfcgi/os_unix.c:668-685 | after any callback a slot is in use exactly if it was, or was armed, and was not closed since, and the table has the size its highest arming asks for |
| DispatchRuns.ScriptHalts | libfcgi/os_unix.c:678-772 | a callback halts the program if and only if one of its actions arms a slot in use by then, or closes a descriptor not covered by then, as told from the table before it and the actions alone; the first such action decides how |
| DispatchRuns.TamePass | libfcgi/os_unix.c:908-947 | if posted callbacks close only covered descriptors and arm only their own or free slots, no slot twice, no pass halts |
| DispatchRuns.PassHalts | libfcgi/os_unix.c:908-947 | a pass without closings halts if and only if some posted callback arms a slot that waits, is posted and yet to come, or is armed earlier in the pass |
| DispatchRuns.PassArms | libfcgi/os_unix.c:908-947 | in a pass without closings whatever posted callbacks arm waits, with its callback, when the pass is over, and so does whatever waited before |
| DispatchRuns.PassLoses | libfcgi/os_unix.c:755-947 | if the first callback closes another posted read, that read is lost to the counter for good |
| AsyncIo.Dispatcher.constructor | libfcgi/os_unix.c:166-200 | 16 unused entries, empty sets, counters at zero |
| AsyncIo.Dispatcher.GrowTo | libfcgi/os_unix.c:674-676 | the loop of doublings covers the slot, keeping live entries |
| AsyncIo.Dispatcher.Arm | libfcgi/os_unix.c:663-737 | the operation waits for select in its own slot, with its callback, and nothing else changes |
| AsyncIo.Dispatcher.Close | libfcgi/os_unix.c:755-779 | for every descriptor: inside the table if and only if covered; both slots are free, both tickets retired, every other slot and both counters stay as they are |
| AsyncIo.Dispatcher.Select | libfcgi/os_unix.c:863-903 | exactly the waiting descriptors that are ready become posted, and are counted |
| AsyncIo.Dispatcher.Take | libfcgi/os_unix.c:912-925 | a posted operation leaves the posted set, the count and the table, and nothing else changes |
| AsyncIo.Dispatcher.Callback | libfcgi/os_unix.c:919-945 | any script: it halts if and only if an action clashes, and otherwise leaves the board its script comes to, each arming with a ticket of its own |
| AsyncIo.Dispatcher.DispatchOne | libfcgi/os_unix.c:912-946 | a posted operation is taken off and its callback comes to exactly what its script says, halting or not; anything else is left alone |
| AsyncIo.Dispatcher.DispatchAll | libfcgi/os_unix.c:908-947 | the loop terminates on exactly the board, or in exactly the halt, that its pass comes to; not halted, nothing is posted |
| AsyncIo.Dispatcher.DoIo | libfcgi/os_unix.c:852-949 | for every script of every callback the call comes to exactly what its board says: every operation posted or found ready is called once unless closed meanwhile, the others stay in their slots, what callbacks arm waits or has been closed, nothing stays posted; tame callbacks never halt it, closing-free ones exactly when they conflict; if something was lost before, nothing happens |
| AsyncIo.RereadOnce | libfcgi/os_unix.c:852-949 | a read whose callback arms it again is called once in a call, which does not halt, and then waits again |
| AsyncIo.Reread | libfcgi/os_unix.c:852-949 | and so in any number of calls |
| AsyncIo.Starve | libfcgi/os_unix.c:755-949 | two reads are ready in one call and the first callback closes the second: in any number of further calls another operation that is ready is never dispatched |
| AsyncIo.CloseWhilePosted | libfcgi/os_unix.c:852-949 | after that call the read counter is above zero although nothing is posted |
| AsyncIo.CloseUncovered | libfcgi/os_unix.c:760-768 | closing a descriptor from 8 on, with only descriptor 0 armed, is outside the table |
| EventLoop.OnlyPossible | cgi-fcgi/cgi-fcgi.c:454-502 | whatever is ready in whatever turns, and whatever reads and writes then do, the events that reach the stdin machine are all ones it expects, and its side of the loop is their course |
| EventLoop.LoopTakesIn | cgi-fcgi/cgi-fcgi.c:219-345 | the answer's side is what successive reads of the bytes that came make of them, unless the loop has ended before the exit status was there |
| EventLoop.LoopRelays | cgi-fcgi/cgi-fcgi.c:887-897 | if those bytes are a complete response, the loop ends with the application's output and exit status if and only if its reads were cut at safe places, whatever happens on the other side |
| EventLoop.Loop.constructor | cgi-fcgi/cgi-fcgi.c:878-886 | main's first ScheduleIo arms exactly what its flags say is pending |
| EventLoop.Loop.ArmNew | cgi-fcgi/cgi-fcgi.c:454-502 | each call ScheduleIo makes of the os layer finds its slot unused, and then the slots in use are exactly those of the pending flags |
| EventLoop.Loop.DispatchStdin | cgi-fcgi/cgi-fcgi.c:380-403 | a ready standard input reaches its handler with its asserts true, and what the handler arms is not posted |
| EventLoop.Loop.DispatchServer | cgi-fcgi/cgi-fcgi.c:219-345 | the same for the server's answer, whether it goes on, ends or fails |
| EventLoop.Loop.DispatchWrite | cgi-fcgi/cgi-fcgi.c:417-438 | the same for the write to the server |
| EventLoop.Loop.DoIo | libfcgi/os_unix.c:852-949 | one call with the bridge's handlers: exactly the operations armed when it began and ready are handled, in order, up to an exit; no assertion fails, nothing is lost, and flags and slots agree afterwards |
| EventLoop.Loop.Run | cgi-fcgi/cgi-fcgi.c:887-893 | main's loop over any turns comes to what the specification says of both sides, until the exit status is there or the bridge ends |

## Left out

- Write errors: after one the library keeps its buffer and the byte-level claims stop; every claim about delivered or sent bytes is for runs without a failed write, which a `reliable` connection guarantees. Bounds, termination and ownership hold with them.
- After an overrun, a stray copy or a pushback below the buffer nothing is said about the program; that these happen, and exactly when, is.
- InputStream.ComposeAnswer: the padding of the answer is zero here; the code sends whatever its response array holds.
- InputStream.Reader.constructor: takes the buffer length after NewStream's sizing, which Writer.constructor models; any positive length is allowed.
- BridgeResponse.Bridge.AppServerReadHandler: writes to stdout and stderr are taken to be complete.
- BridgeResponse.ResponseInAnyChunks: the exit status is a 32-bit int.
- BridgeRequest.SendPreamble: environment strings shorter than INT_MAX, the limit of the pair encoding.
- AsyncIo.Dispatcher.DoIo: callbacks are modelled by what they do to the table, a script of armings and closings that is fixed when the operation is armed (EventLoop.Loop.DoIo has the bridge's handlers instead, which decide when called); OS_CloseRead is left out.
- AsyncIo.Dispatcher.Arm: the code's assertion that the slot is unused is a precondition; buffers, offsets and callback pointers are represented by the arming's ticket.
- Request.Acceptor.Accept: an attempt on which a write fails leaves the old request id or the one BEGIN_REQUEST brought, and which of them is not said; on the connection held it is not fixed then.
- Request.Serve: what the application reads and writes between the calls is the subject of EndToEnd.Work, not of this run.
- Request.Acceptor.Accept: FCGX_Attach and FCGX_Detach, the not-initialised code -9998, and a second request pipelined on a kept connection behind the first (the new reader drops the old buffer).
- EndToEnd.Exchange: forwarding and relaying are run one after the other; EndToEnd.ExchangeByLoop interleaves them in the event loop, and there the bytes that the loop reads are given by its turns.
- EventLoop.Loop.constructor: the socket is not descriptor 0, as it cannot be while standard input is open; with standard input closed both reads could want one slot.
- The dispatch on isReader in FCGX_GetChar, FCGX_PutChar and FCGX_FClose: readers and writers are two classes here, and a call of the wrong kind cannot be written.
- FCGX_GetLine, FCGX_PutS, FCGX_HasSeenEOF, FCGX_GetError and FCGX_ClearError: thin wrappers over what is modelled.
- FCGX_VFPrintF and FCGX_FPrintF: conversion rests on the C library's formatting.
- Memory: allocation failure and freeing.
- Sockets: creating, connecting, accepting, locking, signals, polling and process spawning in libfcgi/os_unix.c, and all of libfcgi/os_win32.c.
- libfcgi/fcgi_stdio.c, libfcgi/fcgio.cpp, the Java and Perl bindings and the examples: wrappers or ports of the same design.
- The bridge's argument parsing and its lookup of CONTENT_LENGTH: the number of bytes to read is a parameter.
