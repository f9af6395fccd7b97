/**
  The select-driven dispatch table of the bridge: callbacks are armed per descriptor and
  direction, posted when select reports them ready, and called once; they may arm further
  operations and close descriptors.
 */
module AsyncIo {
  import opened DispatchSpec
  import opened DispatchRuns

  class Dispatcher {
    var asyncIoInUse: bool
    var asyncIoTable: seq<AioInfo>
    var readFdSet: set<nat>
    var writeFdSet: set<nat>
    var readFdSetPost: set<nat>
    var writeFdSetPost: set<nat>
    var numRdPosted: int
    var numWrPosted: int
    var maxFd: int

    /** An assertion of the code has failed, or the table has been indexed behind its end. */
    var halt: Halt

    /**
      Tickets given out, those whose callback was called or whose descriptor was closed, and posted
      ones among the latter.
     */
    var nextTicket: nat
    ghost var called: seq<nat>
    ghost var closed: seq<nat>
    ghost var lostRd: nat
    ghost var lostWr: nat

    ghost function View(): Sets
      reads this
    {
      Sets(readFdSet, writeFdSet, readFdSetPost, writeFdSetPost)
    }

    ghost function Now(): Board
      reads this
    {
      Board(asyncIoTable, View(), maxFd, numRdPosted, numWrPosted, nextTicket, called, closed, lostRd, lostWr)
    }

    /** The program has come to `r`. */
    ghost predicate At(r: Outcome)
      reads this
    {
      r == if halt == Running then Ran(Now()) else Halted(halt)
    }

    /** OS_LibInit. */
    constructor ()
      ensures Good(Now()) && halt == Running && !asyncIoInUse
      ensures View() == Sets({}, {}, {}, {}) && maxFd == -1 && |asyncIoTable| == 16
      ensures nextTicket == 0 && called == [] && closed == [] && lostRd == 0 && lostWr == 0
    {
      asyncIoInUse := false;
      asyncIoTable := seq(16, i => UNUSED);
      readFdSet, writeFdSet, readFdSetPost, writeFdSetPost := {}, {}, {}, {};
      numRdPosted, numWrPosted, maxFd := 0, 0, -1;
      nextTicket, called, closed, lostRd, lostWr, halt := 0, [], [], 0, 0, Running;
    }

    method GrowAsyncTable()
      modifies this`asyncIoTable
      ensures asyncIoTable == Grown(old(asyncIoTable))
    {
      asyncIoTable := Grown(asyncIoTable);
    }

    /** The table is doubled until it covers `index`; live entries stay, new ones are unused. */
    method GrowTo(index: nat)
      requires asyncIoTable != []
      modifies this`asyncIoTable
      ensures asyncIoTable == GrownTo(old(asyncIoTable), index)
      ensures GrowsTo(old(asyncIoTable), asyncIoTable) && index < |asyncIoTable|
    {
      while index >= |asyncIoTable|
        invariant asyncIoTable != [] && GrownTo(old(asyncIoTable), index) == GrownTo(asyncIoTable, index)
        decreases index - |asyncIoTable|
      {
        GrowAsyncTable();
      }
    }

    /** OS_AsyncRead and OS_AsyncWrite (OS_AsyncReadStdin is the former with descriptor 0). */
    method Arm(fd: nat, write: bool, proc: Proc)
      requires Good(Now()) && !InUse(asyncIoTable, fd, write)
      modifies this`asyncIoTable, this`maxFd, this`readFdSet, this`writeFdSet, this`nextTicket, this`asyncIoInUse
      ensures old(asyncIoTable) != [] && Now() == ArmBoard(old(Now()), fd, write, proc) && asyncIoInUse
      ensures Follows(old(Now()), Now()) && Holds(Now(), fd, write, proc)
      ensures maxFd == (if fd > old(maxFd) then fd else old(maxFd)) && nextTicket == old(nextTicket) + 1
    {
      hide Good, Follows, GrownTo, GrowsTo, Holds, InUse;
      GoodTable(Now());
      ArmFollows(Now(), fd, write, proc);
      ArmHolds(Now(), fd, write, proc);
      asyncIoInUse := true;
      var index := Index(fd, write);
      if fd > maxFd {
        maxFd := fd;
      }
      GrowTo(index);
      asyncIoTable := asyncIoTable[index := AioInfo(true, fd, nextTicket, proc)];
      nextTicket := nextTicket + 1;
      if write {
        writeFdSet := writeFdSet + {fd};
      } else {
        readFdSet := readFdSet + {fd};
      }
    }

    /** One direction of OS_Close. */
    method Drop(fd: nat, write: bool)
      requires Index(fd, write) < |asyncIoTable|
      modifies this`asyncIoTable, this`readFdSet, this`writeFdSet, this`readFdSetPost, this`writeFdSetPost,
               this`closed, this`lostRd, this`lostWr
      ensures Now() == DropBoard(old(Now()), fd, write) && |asyncIoTable| == |old(asyncIoTable)|
    {
      if write {
        lostWr := lostWr + if fd in writeFdSetPost then 1 else 0;
        writeFdSet := writeFdSet - {fd};
        writeFdSetPost := writeFdSetPost - {fd};
      } else {
        lostRd := lostRd + if fd in readFdSetPost then 1 else 0;
        readFdSet := readFdSet - {fd};
        readFdSetPost := readFdSetPost - {fd};
      }
      if asyncIoTable[Index(fd, write)].inUse {
        closed := closed + [asyncIoTable[Index(fd, write)].ticket];
        asyncIoTable := asyncIoTable[Index(fd, write) := asyncIoTable[Index(fd, write)].(inUse := false)];
      }
    }

    /**
      The bookkeeping of OS_Close.  `inside` is false when the descriptor is not covered by the
      table, whose entries for it the code reads and may write all the same.  The counters are
      not adjusted: an operation that was posted stays counted.
     */
    method Close(fd: int) returns (inside: bool)
      requires Good(Now()) && fd >= -1
      modifies this`asyncIoTable, this`readFdSet, this`writeFdSet, this`readFdSetPost, this`writeFdSetPost, this`maxFd,
               this`closed, this`lostRd, this`lostWr
      ensures inside <==> fd == -1 || !asyncIoInUse || Index(fd, true) < |old(asyncIoTable)|
      ensures !inside || fd == -1 || !asyncIoInUse ==> Now() == old(Now())
      ensures inside && fd >= 0 && asyncIoInUse ==>
                && Now() == CloseBoard(old(Now()), fd)
                && !InUse(asyncIoTable, fd, false) && !InUse(asyncIoTable, fd, true)
                && maxFd == if old(maxFd) == fd then fd - 1 else old(maxFd)
      ensures numRdPosted == old(numRdPosted) && numWrPosted == old(numWrPosted)
      ensures Follows(old(Now()), Now()) && called == old(called)
    {
      hide Good, Follows, DropBoard;
      FollowsItself(Now());
      inside := true;
      if fd == -1 || !asyncIoInUse {
        return;
      }
      if Index(fd, true) >= |asyncIoTable| {
        NotCovered(Now(), fd);
        readFdSet := readFdSet - {fd};
        readFdSetPost := readFdSetPost - {fd};
        return false;
      }
      CloseFollows(Now(), fd);
      ClosedSlots(Now(), fd);
      Drop(fd, false);
      Drop(fd, true);
      if maxFd == fd {
        maxFd := maxFd - 1;
      }
    }

    /** A callback: it arms operations and closes descriptors, as far as that can be done. */
    method Callback(proc: Proc)
      requires Good(Now()) && halt == Running && asyncIoInUse
      modifies this`asyncIoTable, this`maxFd, this`readFdSet, this`writeFdSet, this`readFdSetPost, this`writeFdSetPost,
               this`nextTicket, this`asyncIoInUse, this`closed, this`lostRd, this`lostWr, this`halt
      ensures old(asyncIoTable) != [] && At(Script(old(Now()), proc.actions)) && asyncIoInUse
      ensures halt != Running <==> exists i :: 0 <= i < |proc.actions| && Clashes(old(asyncIoTable), proc.actions, i)
      ensures halt == Running ==>
                && Follows(old(Now()), Now()) && called == old(called)
                && nextTicket == old(nextTicket) + Arms(proc.actions)
    {
      hide Good, Follows, Script, Clashes, ArmBoard, CloseBoard;
      GoodTable(Now());
      ScriptFollows(Now(), proc.actions);
      ScriptHalts(Now(), proc.actions);
      for i := 0 to |proc.actions|
        invariant Good(Now()) && halt == Running && asyncIoInUse && asyncIoTable != []
        invariant Script(old(Now()), proc.actions) == Script(Now(), proc.actions[i..])
      {
        ghost var before := Now();
        ScriptStep(before, proc.actions, i);
        match proc.actions[i] {
          case CloseFd(fd) =>
            var inside := Close(fd);
            if !inside {
              halt := Strayed;
              return;
            }
          case ArmFor(fd, write, p) =>
            if InUse(asyncIoTable, fd, write) {
              halt := Asserted;
              return;
            }
            Arm(fd, write, p);
        }
        FollowsGood(before, Now());
      }
      assert proc.actions[|proc.actions|..] == [];
      EmptyScript(Now());
    }

    /** One descriptor that select reported ready moves from waiting to posted. */
    method PostOne(fd: nat, write: bool)
      requires fd in Waiting(View(), write) && fd !in Posted(View(), write)
      modifies this`readFdSet, this`writeFdSet, this`readFdSetPost, this`writeFdSetPost, this`numRdPosted,
               this`numWrPosted
      ensures View() == Post(old(View()), fd, write)
      ensures numRdPosted - Size(readFdSetPost) == old(numRdPosted - Size(readFdSetPost))
      ensures numWrPosted - Size(writeFdSetPost) == old(numWrPosted - Size(writeFdSetPost))
    {
      hide Size;
      SizeChanges(Posted(View(), write), fd);
      if write {
        numWrPosted := numWrPosted + 1;
        writeFdSetPost := writeFdSetPost + {fd};
        writeFdSet := writeFdSet - {fd};
      } else {
        numRdPosted := numRdPosted + 1;
        readFdSetPost := readFdSetPost + {fd};
        readFdSet := readFdSet - {fd};
      }
    }

    /** select, and the list of completed events built from its answer. */
    method Select(readable: set<nat>, writable: set<nat>)
      requires Good(Now()) && numRdPosted == 0 && numWrPosted == 0
      modifies this`readFdSet, this`writeFdSet, this`readFdSetPost, this`writeFdSetPost, this`numRdPosted,
               this`numWrPosted
      ensures Now() == SelectBoard(old(Now()), readable, writable)
      ensures readFdSetPost == old(readFdSet) * readable && writeFdSetPost == old(writeFdSet) * writable
      ensures readFdSet == old(readFdSet) - readable && writeFdSet == old(writeFdSet) - writable
      ensures Good(Now()) && lostRd == 0 && lostWr == 0
    {
      hide Good, Below, Size;
      ghost var s := View();
      NoneLost(Now());
      ReadyKeeps(Now(), readable, writable);
      WithinMaxFd(Now());
      var readFdSetCpy := readFdSet * readable;
      var writeFdSetCpy := writeFdSet * writable;
      var fd := 0;
      NoneBelow(readFdSetCpy);
      NoneBelow(writeFdSetCpy);
      SizeChanges({}, 0);
      while fd <= maxFd
        invariant 0 <= fd && numRdPosted == Size(readFdSetPost) && numWrPosted == Size(writeFdSetPost)
        invariant readFdSetPost == Below(readFdSetCpy, fd) && writeFdSetPost == Below(writeFdSetCpy, fd)
        invariant readFdSet == s.readWaiting - readFdSetPost && writeFdSet == s.writeWaiting - writeFdSetPost
        decreases maxFd - fd
      {
        BelowNext(readFdSetCpy, fd);
        BelowNext(writeFdSetCpy, fd);
        if fd in readFdSetCpy {
          PostOne(fd, false);
        }
        if fd in writeFdSetCpy {
          PostOne(fd, true);
        }
        fd := fd + 1;
      }
      AllBelow(readFdSetCpy, fd);
      AllBelow(writeFdSetCpy, fd);
      assert View() == SelectSets(s, readable, writable);
    }

    /** A posted operation is done: it leaves the posted set, the count and the table. */
    method Take(fd: nat, write: bool)
      requires Good(Now()) && fd in Posted(View(), write)
      modifies this`asyncIoTable, this`readFdSetPost, this`writeFdSetPost, this`numRdPosted, this`numWrPosted,
               this`called
      ensures InUse(old(asyncIoTable), fd, write) && Now() == FireBoard(old(Now()), fd, write)
      ensures Follows(old(Now()), Now())
      ensures numRdPosted == old(numRdPosted) - (if write then 0 else 1)
      ensures numWrPosted == old(numWrPosted) - (if write then 1 else 0)
    {
      hide Good, Follows;
      FireFollows(Now(), fd, write);
      if write {
        numWrPosted := numWrPosted - 1;
        writeFdSetPost := writeFdSetPost - {fd};
      } else {
        numRdPosted := numRdPosted - 1;
        readFdSetPost := readFdSetPost - {fd};
      }
      var index := Index(fd, write);
      called := called + [asyncIoTable[index].ticket];
      asyncIoTable := asyncIoTable[index := asyncIoTable[index].(inUse := false)];
    }

    /** One descriptor and direction in the dispatch loop: do the operation and call its callback. */
    method DispatchOne(fd: nat, write: bool)
      requires Good(Now()) && halt == Running && asyncIoInUse
      modifies this
      ensures old(asyncIoTable) != [] && At(DispatchSlot(old(Now()), fd, write)) && asyncIoInUse
      ensures halt == Running ==> Follows(old(Now()), Now()) && fd !in Posted(View(), write)
      ensures fd !in old(Posted(View(), write)) ==> halt == Running && Now() == old(Now())
    {
      hide Good, Follows, Script, FireBoard;
      SlotFollows(Now(), fd, write);
      if fd in (if write then writeFdSetPost else readFdSetPost) && InUse(asyncIoTable, fd, write) {
        var proc := asyncIoTable[Index(fd, write)].proc;
        Take(fd, write);
        FollowsGood(old(Now()), Now());
        Callback(proc);
      }
    }

    /** One turn of the loop: the read of `fd`, then its write. */
    method DispatchBoth(fd: nat)
      requires Good(Now()) && halt == Running && asyncIoInUse
      modifies this
      ensures old(asyncIoTable) != [] && At(DispatchPair(old(Now()), fd)) && asyncIoInUse
      ensures halt == Running ==> Good(Now())
    {
      hide Good, Follows, DispatchSlot;
      DispatchOne(fd, false);
      if halt != Running {
        return;
      }
      FollowsGood(old(Now()), Now());
      ghost var c := Now();
      DispatchOne(fd, true);
      if halt == Running {
        FollowsGood(c, Now());
      }
    }

    /** The dispatch loop; maxFd may grow or shrink under it. */
    method DispatchAll()
      requires Good(Now()) && halt == Running && asyncIoInUse
      modifies this
      ensures old(asyncIoTable) != [] && At(DispatchFrom(old(Now()), 0)) && asyncIoInUse
      ensures halt == Running ==> Follows(old(Now()), Now()) && readFdSetPost == {} && writeFdSetPost == {}
    {
      hide Good, Follows, DispatchPair;
      PassFollows(Now(), 0);
      var fd := 0;
      while fd <= maxFd
        invariant 0 <= fd && Good(Now()) && halt == Running && asyncIoInUse && asyncIoTable != []
        invariant DispatchFrom(old(Now()), 0) == DispatchFrom(Now(), fd)
        decreases readFdSetPost, writeFdSetPost, maxFd - fd
      {
        DispatchBoth(fd);
        if halt != Running {
          return;
        }
        GoodTable(Now());
        fd := fd + 1;
      }
    }

    /**
      OS_DoIo: every operation that select reports ready, or that was posted before, has its
      callback called exactly once, unless an earlier callback closes it; what callbacks arm
      waits for a later call.  When an operation has been lost to a close, select is not called.
     */
    method DoIo(readable: set<nat>, writable: set<nat>)
      requires Good(Now()) && halt == Running
      modifies this
      ensures old(asyncIoTable) != [] && At(DoIoBoard(old(Now()), readable, writable)) && asyncIoInUse
      ensures var ready := ReadyBoard(old(Now()), readable, writable);
              && (Tame(ready.table, ready.s) ==> halt == Running)
              && (Placid(ready.table, ready.s) ==> (halt != Running <==> AnyConflict(ready.table, ready.s)))
      ensures halt == Running ==>
                var ready := ReadyBoard(old(Now()), readable, writable);
                var agenda := Agenda(old(Now()), readable, writable);
                && Follows(ready, Now())
                && readFdSetPost == {} && writeFdSetPost == {} && numRdPosted == lostRd && numWrPosted == lostWr
                && old(called) <= called && old(closed) <= closed
                && agenda == Members(called[|old(called)|..]) + agenda * Members(closed)
                && agenda !! Members(old(called)) && agenda !! Members(old(closed))
                && (forall t :: t in agenda ==> t < old(nextTicket))
                && (forall t: nat :: old(nextTicket) <= t < nextTicket ==> Live(asyncIoTable, t) || t in closed)
                && (forall a, z :: FirstCloses(ready, a, z) ==> lostRd > old(lostRd))
                && (Placid(ready.table, ready.s) ==>
                      && SameClosed(old(Now()), Now())
                      && forall g, v, p :: Pending(ready, g, v, p) ==> Holds(Now(), g, v, p))
      ensures old(numRdPosted + numWrPosted > 0 && readFdSetPost == {} && writeFdSetPost == {}) ==>
                halt == Running && Now() == old(Now())
    {
      hide Good, Follows, DispatchFrom, Due, Members, Live, Tame, Placid, AnyConflict, Pending, Holds, FirstCloses;
      DoIoFollows(Now(), readable, writable);
      DoIoRuns(Now(), readable, writable);
      asyncIoInUse := true;
      if numRdPosted == 0 && numWrPosted == 0 {
        Select(readable, writable);
      }
      if numRdPosted == 0 && numWrPosted == 0 {
        return;
      }
      DispatchAll();
    }
  }

  // ---------------------------------------------------------------- the descriptors below a bound

  function Below(s: set<nat>, n: nat): set<nat> {
    set f | f in s && f < n
  }

  lemma NoneBelow(s: set<nat>)
    ensures Below(s, 0) == {}
  {
  }

  lemma BelowNext(s: set<nat>, n: nat)
    ensures Below(s, n + 1) == if n in s then Below(s, n) + {n} else Below(s, n)
    ensures n !in Below(s, n) && Below(s, n) <= s
  {
  }

  lemma AllBelow(s: set<nat>, n: nat)
    requires forall f :: f in s ==> f < n
    ensures Below(s, n) == s
  {
  }

  lemma WithinMaxFd(b: Board)
    requires Good(b)
    ensures forall f :: f in b.s.readWaiting || f in b.s.writeWaiting ==> f <= b.maxFd
  {
    hide Ticketed, Counted;
    assert forall f: nat :: f in b.s.readWaiting ==> f in Waiting(b.s, false);
    assert forall f: nat :: f in b.s.writeWaiting ==> f in Waiting(b.s, true);
  }

  // ---------------------------------------------------------------- a callback that arms its own operation again

  /** A read whose callback arms it again, `n` times over. */
  function Rereading(fd: nat, n: nat): Proc {
    Proc(if n == 0 then [] else [ArmFor(fd, false, Rereading(fd, n - 1))])
  }

  /** Nothing is posted or lost, and the read of `fd` waits with this callback. */
  ghost predicate Resting(b: Board, fd: nat, proc: Proc) {
    Good(b) && b.numRd == 0 && b.numWr == 0 && Holds(b, fd, false, proc)
  }

  lemma RereadReady(b: Board, fd: nat, n: nat)
    requires Resting(b, fd, Rereading(fd, n)) && n > 0
    ensures Index(fd, false) < |b.table|
    ensures var c := ReadyBoard(b, {fd}, {});
            && Tame(c.table, c.s) && Placid(c.table, c.s) && Pending(c, fd, false, Rereading(fd, n - 1))
            && Agenda(b, {fd}, {}) == {b.table[Index(fd, false)].ticket}
            && b.lostRd == 0 && b.lostWr == 0
  {
    hide Good, Holds;
    NoneLost(b);
    var c := ReadyBoard(b, {fd}, {});
    var p := Rereading(fd, n);
    assert Holds(b, fd, false, p) ==>
             InUse(b.table, fd, false) && Called(b.table, fd, false) == p.actions && fd in b.s.readWaiting by {
      HoldsMeans(b, fd, false, p);
    }
    assert c.s.readPosted == {fd} && c.s.writePosted == {};
    assert p.actions[0] == ArmFor(fd, false, Rereading(fd, n - 1));
    assert WillArm(c.table, c.s, fd, false, Rereading(fd, n - 1)) by {
      assert fd in Posted(c.s, false) && InUse(c.table, fd, false);
    }
    assert forall f: nat, w: bool :: f in Posted(c.s, w) <==> f == fd && !w;
  }

  lemma HoldsMeans(b: Board, fd: nat, write: bool, proc: Proc)
    requires Holds(b, fd, write, proc)
    ensures InUse(b.table, fd, write) && Called(b.table, fd, write) == proc.actions && fd in Waiting(b.s, write)
  {
  }

  lemma OneCalled(called: seq<nat>, before: seq<nat>, t: nat)
    requires before <= called && Members(called[|before|..]) == {t} && Distinct(called)
    ensures |called| == |before| + 1
  {
    var since := called[|before|..];
    assert forall k :: 0 <= k < |since| ==> since[k] in Members(since) && since[k] == called[|before| + k];
    assert t in since;
    assert Distinct(since);
    TwoDiffer(since);
  }

  lemma TwoDiffer(s: seq<nat>)
    requires Distinct(s)
    ensures |s| <= 1 || s[0] != s[1]
  {
  }

  /** One call of OS_DoIo calls the read's callback once, and it waits again. */
  method RereadOnce(d: Dispatcher, fd: nat, n: nat)
    requires Resting(d.Now(), fd, Rereading(fd, n)) && d.halt == Running && n > 0
    modifies d
    ensures Resting(d.Now(), fd, Rereading(fd, n - 1)) && d.halt == Running
    ensures |d.called| == |old(d.called)| + 1 && d.closed == old(d.closed)
  {
    hide Good, Follows, Due, Members, Tame, Placid, Pending, Holds, FirstCloses, Distinct;
    RereadReady(d.Now(), fd, n);
    d.DoIo({fd}, {});
    FollowsGood(ReadyBoard(old(d.Now()), {fd}, {}), d.Now());
    GoodDistinct(d.Now());
    ghost var t := old(d.asyncIoTable)[Index(fd, false)].ticket;
    assert {t} * Members(d.closed) == {};
    OneCalled(d.called, old(d.called), t);
  }

  lemma GoodDistinct(b: Board)
    requires Good(b)
    ensures Distinct(b.called)
  {
  }

  /** In any number of calls. */
  method Reread(fd: nat, n: nat) returns (d: Dispatcher)
    ensures d.halt == Running && Resting(d.Now(), fd, Proc([])) && |d.called| == n && d.closed == []
  {
    hide Good, Follows, Holds;
    d := new Dispatcher();
    ghost var start := d.Now();
    NotInUse(start);
    NoneLost(start);
    d.Arm(fd, false, Rereading(fd, n));
    FollowsGood(start, d.Now());
    for i := 0 to n
      invariant Resting(d.Now(), fd, Rereading(fd, n - i)) && d.halt == Running && |d.called| == i && d.closed == []
      invariant fresh(d)
    {
      RereadOnce(d, fd, n - i);
    }
  }

  lemma NotInUse(b: Board)
    requires Good(b) && b.s == Sets({}, {}, {}, {})
    ensures forall f: nat, w: bool :: !InUse(b.table, f, w)
    ensures b.numRd == b.lostRd && b.numWr == b.lostWr
  {
    hide Ticketed;
    assert forall f: nat, w: bool :: f !in Waiting(b.s, w) && f !in Posted(b.s, w);
  }

  // ---------------------------------------------------------------- runs that go wrong

  /**
    Two reads are ready in one call of OS_DoIo, and the callback of the first closes the
    descriptor of the second.  From then on the counter never returns to zero, select is never
    called again, and an operation that is ready is not dispatched, in any number of rounds.
   */
  method Starve(a: nat, b: nat, other: nat, rounds: nat) returns (d: Dispatcher)
    requires a < b
    ensures Good(d.Now()) && d.halt == Running && d.readFdSetPost == {} && d.writeFdSetPost == {}
    ensures d.numRdPosted > 0 && other in d.readFdSet && InUse(d.asyncIoTable, other, false)
  {
    hide Good, Follows, Holds, Tame, Placid, Pending, FirstCloses, Due, Members;
    d := CloseWhilePosted(a, b);
    if !InUse(d.asyncIoTable, other, false) {
      ghost var before := d.Now();
      d.Arm(other, false, Proc([]));
      FollowsGood(before, d.Now());
    }
    InUseAreListed(d.Now(), other);
    NoneLost(d.Now());
    ghost var stuck := d.Now();
    for i := 0 to rounds
      invariant d.Now() == stuck && d.halt == Running
    {
      d.DoIo({other}, {});
    }
  }

  lemma InUseAreListed(b: Board, fd: nat)
    requires Good(b) && InUse(b.table, fd, false)
    ensures fd in b.s.readWaiting || fd in b.s.readPosted
  {
    hide Ticketed, Counted;
    assert fd in Waiting(b.s, false) || fd in Posted(b.s, false);
  }

  method CloseWhilePosted(a: nat, b: nat) returns (d: Dispatcher)
    requires a < b
    ensures fresh(d) && Good(d.Now()) && d.halt == Running && d.numRdPosted > 0 && d.numWrPosted >= 0
    ensures d.readFdSetPost == {} && d.writeFdSetPost == {}
  {
    hide Good, Follows, Holds, Tame, Placid, Pending, FirstCloses, Due, Members, ArmBoard;
    d := new Dispatcher();
    ghost var start := d.Now();
    NotInUse(start);
    NoneLost(start);
    BothReady(start, a, b);
    d.Arm(a, false, Proc([CloseFd(b)]));
    FollowsGood(start, d.Now());
    ghost var first := d.Now();
    d.Arm(b, false, Proc([]));
    FollowsGood(first, d.Now());
    ghost var ready := ReadyBoard(d.Now(), {a, b}, {});
    d.DoIo({a, b}, {});
    FollowsGood(ready, d.Now());
  }

  lemma BothReady(start: Board, a: nat, b: nat)
    requires start.table != [] && |start.table| % 2 == 0 && start.s == Sets({}, {}, {}, {}) && a < b
    requires start.numRd == 0 && start.numWr == 0 && !InUse(start.table, b, false)
    ensures var first := ArmBoard(start, a, false, Proc([CloseFd(b)]));
            && !InUse(first.table, b, false)
            && var ready := ReadyBoard(ArmBoard(first, b, false, Proc([])), {a, b}, {});
               Tame(ready.table, ready.s) && FirstCloses(ready, a, b)
  {
    SlotsApart(a, false);
    var first := ArmBoard(start, a, false, Proc([CloseFd(b)]));
    var ready := ReadyBoard(ArmBoard(first, b, false, Proc([])), {a, b}, {});
    assert ready.s.readPosted == {a, b} && ready.s.writePosted == {};
    assert Called(ready.table, a, false) == [CloseFd(b)] && Called(ready.table, b, false) == [];
    assert forall f: nat, w: bool :: f in Posted(ready.s, w) <==> !w && (f == a || f == b);
    assert Index(b, true) < |ready.table|;
    assert [CloseFd(b)][0] == CloseFd(b);
  }

  /** Closing a descriptor beyond the table's sixteen entries, nothing having made it grow. */
  method CloseUncovered(fd: nat) returns (inside: bool)
    requires fd >= 8
    ensures !inside
  {
    hide Good, Follows, Holds;
    var d := new Dispatcher();
    ghost var start := d.Now();
    NotInUse(start);
    d.Arm(0, false, Proc([]));
    FollowsGood(start, d.Now());
    inside := d.Close(fd);
  }
}
