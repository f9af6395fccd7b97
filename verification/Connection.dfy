/**
  One connection to the web server, with the request data that its input stream and its
  two output streams share.  Reads and writes may be cut anywhere.
 */
module Connection {
  import opened Seqs
  import opened Protocol

  class Link {
    /** What the peer will yet send, and how its sending ends: 0 is an orderly close, else an errno. */
    var inbound: seq<byte>
    var endErrno: nat

    /** What the peer has received; some write has failed. */
    var outbound: seq<byte>
    var writeFailed: bool

    /** No write on this connection ever fails; every write takes in all it is given, every read brings all it can. */
    const reliable: bool
    const prompt: bool
    const eager: bool

    /** How often the peer will yet take in nothing at all: a write of no bytes is not a failure. */
    var stalls: nat

    var requestId: int
    var role: int
    var keepConnection: bool
    var isBeginProcessed: bool
    var appStatus: int
    var nWriters: int

    /** The records that make up `outbound`. */
    ghost var sent: seq<Record>

    ghost predicate Synced()
      reads this
    {
      && (!writeFailed ==> outbound == EncodeAll(sent))
      && (writeFailed ==> !reliable)
    }

    /** A fresh connection, as OS_Accept hands it over; request data as memset leaves them. */
    constructor (inbound: seq<byte>, endErrno: nat, stalls: nat, reliable: bool, prompt: bool, eager: bool)
      ensures this.inbound == inbound && this.endErrno == endErrno && this.reliable == reliable
      ensures this.prompt == prompt && this.eager == eager
      ensures outbound == [] && sent == [] && !writeFailed && Synced()
      ensures requestId == 0 && role == 0 && !keepConnection && !isBeginProcessed && appStatus == 0 && nWriters == 0
    {
      this.inbound, this.endErrno, this.reliable, this.prompt, this.eager := inbound, endErrno, reliable, prompt, eager;
      outbound, sent, writeFailed, this.stalls := [], [], false, stalls;
      requestId, role, appStatus, nWriters := 0, 0, 0, 0;
      keepConnection, isBeginProcessed := false, false;
    }

    /** OS_Read: any positive number of the bytes to come, or the end of the connection. */
    method Read(buf: array<byte>) returns (count: int)
      requires buf.Length > 0
      modifies this`inbound, buf
      ensures old(inbound) == [] ==>
                inbound == [] && buf[..] == old(buf[..]) && count == (if endErrno == 0 then 0 else -1)
      ensures old(inbound) != [] ==>
                && 0 < count <= buf.Length && count <= |old(inbound)|
                && buf[..count] == old(inbound)[..count]
                && inbound == old(inbound)[count..]
                && (eager ==> count == Min(buf.Length, |old(inbound)|))
    {
      if inbound == [] {
        return if endErrno == 0 then 0 else -1;
      }
      count :| 0 < count <= buf.Length && count <= |inbound| && (eager ==> count == Min(buf.Length, |inbound|));
      forall i | 0 <= i < count {
        buf[i] := inbound[i];
      }
      inbound := inbound[count..];
    }

    /** OS_Write: any number of the bytes given, none only so often, or failure. */
    method Write(w: seq<byte>) returns (wrote: int)
      requires w != []
      modifies this`outbound, this`writeFailed, this`stalls
      ensures wrote < 0 ==> writeFailed && !reliable && outbound == old(outbound)
      ensures wrote >= 0 ==> wrote <= |w| && outbound == old(outbound) + w[..wrote] && writeFailed == old(writeFailed)
      ensures stalls <= old(stalls) && (wrote == 0 ==> stalls < old(stalls))
      ensures prompt && wrote >= 0 ==> wrote == |w|
    {
      var fails: bool := *;
      if fails && !reliable {
        writeFailed := true;
        return -1;
      }
      var stall: bool := *;
      if stall && stalls > 0 && !prompt {
        stalls := stalls - 1;
        Unit(outbound);
        return 0;
      }
      wrote :| 0 < wrote <= |w| && (prompt ==> wrote == |w|);
      outbound := outbound + w[..wrote];
    }

    /** write_it_all. */
    method WriteItAll(w: seq<byte>) returns (ok: bool)
      modifies this`outbound, this`writeFailed, this`stalls
      ensures ok ==> outbound == old(outbound) + w && writeFailed == old(writeFailed)
      ensures !ok ==> writeFailed && !reliable
    {
      var buf := w;
      ghost var done := 0;
      while |buf| > 0
        invariant 0 <= done <= |w| && buf == w[done..]
        invariant outbound == old(outbound) + w[..done] && writeFailed == old(writeFailed)
        decreases |buf|, stalls
      {
        var wrote := Write(buf);
        if wrote < 0 {
          return false;
        }
        TakeMore(w, done, wrote);
        Assoc(old(outbound), w[..done], w[done..done + wrote]);
        buf := buf[wrote..];
        done := done + wrote;
      }
      return true;
    }

    /** A record the library composes and writes at once. */
    method WriteRecord(q: Record) returns (ok: bool)
      requires Synced()
      modifies this`outbound, this`writeFailed, this`stalls, this`sent
      ensures Synced()
      ensures ok ==> sent == old(sent) + [q] && writeFailed == old(writeFailed)
      ensures !ok ==> writeFailed && !reliable
    {
      ok := WriteItAll(EncodeRecord(q));
      EncodeAllSnoc(sent, q);
      sent := sent + [q];
    }
  }
}
