/**
  The select-driven dispatch table as a value: what arming, closing, posting and calling do to
  it, and what any pass over it, with callbacks that arm and close, keeps.
 */
module DispatchSpec {
  /** A callback, by what it will do to the table when it is called. */
  datatype Proc = Proc(actions: seq<Action>)

  datatype Action = ArmFor(fd: nat, write: bool, proc: Proc) | CloseFd(fd: nat)

  /** One table entry; `ticket` stands for the arming that filled it. */
  datatype AioInfo = AioInfo(inUse: bool, fd: nat, ticket: nat, proc: Proc)

  const UNUSED := AioInfo(false, 0, 0, Proc([]))

  /** The two pairs of descriptor sets, by direction: waiting for select, and posted by it. */
  datatype Sets = Sets(readWaiting: set<nat>, writeWaiting: set<nat>, readPosted: set<nat>, writePosted: set<nat>)

  /**
    The whole state.  `next` tickets have been given out; those of `called` had their callback
    called and those of `closed` lost their descriptor, in that order; `lostRd` and `lostWr` of
    the latter had been posted.
   */
  datatype Board = Board(
    table: seq<AioInfo>,
    s: Sets,
    maxFd: int,
    numRd: int,
    numWr: int,
    next: nat,
    called: seq<nat>,
    closed: seq<nat>,
    lostRd: nat,
    lostWr: nat)

  /** Where a run stops: a failed assertion, or an access behind the table, after which nothing is known. */
  datatype Halt = Running | Asserted | Strayed

  datatype Outcome = Ran(board: Board) | Halted(halt: Halt)

  // ---------------------------------------------------------------- slots and sets

  /** AIO_RD_IX and AIO_WR_IX. */
  function Index(fd: nat, write: bool): nat {
    fd * 2 + if write then 1 else 0
  }

  /** No two (descriptor, direction) pairs share a slot. */
  lemma SlotsApart(fd: nat, write: bool)
    ensures forall f: nat, w: bool :: Index(f, w) == Index(fd, write) <==> f == fd && w == write
  {
  }

  function Waiting(s: Sets, write: bool): set<nat> {
    if write then s.writeWaiting else s.readWaiting
  }

  function Posted(s: Sets, write: bool): set<nat> {
    if write then s.writePosted else s.readPosted
  }

  predicate InUse(table: seq<AioInfo>, fd: nat, write: bool) {
    Index(fd, write) < |table| && table[Index(fd, write)].inUse
  }

  function Post(s: Sets, fd: nat, write: bool): Sets {
    if write then s.(writeWaiting := s.writeWaiting - {fd}, writePosted := s.writePosted + {fd})
    else s.(readWaiting := s.readWaiting - {fd}, readPosted := s.readPosted + {fd})
  }

  function AddWaiting(s: Sets, fd: nat, write: bool): Sets {
    if write then s.(writeWaiting := s.writeWaiting + {fd}) else s.(readWaiting := s.readWaiting + {fd})
  }

  function Unpost(s: Sets, fd: nat, write: bool): Sets {
    if write then s.(writePosted := s.writePosted - {fd}) else s.(readPosted := s.readPosted - {fd})
  }

  function Without(s: Sets, fd: nat, write: bool): Sets {
    if write then s.(writeWaiting := s.writeWaiting - {fd}, writePosted := s.writePosted - {fd})
    else s.(readWaiting := s.readWaiting - {fd}, readPosted := s.readPosted - {fd})
  }

  function Size(s: set<nat>): nat {
    |s|
  }

  lemma SizeChanges(s: set<nat>, fd: nat)
    ensures fd !in s ==> Size(s + {fd}) == Size(s) + 1 && s - {fd} == s
    ensures fd in s ==> Size(s - {fd}) == Size(s) - 1
    ensures Size(s) == 0 <==> s == {}
  {
  }

  /** realloc and memset. */
  function Grown(table: seq<AioInfo>): (t: seq<AioInfo>)
    ensures |t| == 2 * |table|
    ensures forall i :: 0 <= i < |table| ==> t[i] == table[i]
    ensures forall i :: |table| <= i < |t| ==> t[i] == UNUSED
  {
    table + seq(|table|, i => UNUSED)
  }

  predicate GrowsTo(table: seq<AioInfo>, t: seq<AioInfo>) {
    && |table| <= |t| && (|table| % 2 == 0 ==> |t| % 2 == 0)
    && forall i :: 0 <= i < |t| ==> t[i] == if i < |table| then table[i] else UNUSED
  }

  /** The table is doubled until it covers `index`; live entries stay, new ones are unused. */
  function GrownTo(table: seq<AioInfo>, index: nat): (t: seq<AioInfo>)
    requires table != []
    ensures GrowsTo(table, t) && index < |t|
    ensures |t| > |table| ==> index >= |table| && |t| <= 2 * index
    decreases index - |table|
  {
    if index < |table| then table else GrownTo(Grown(table), index)
  }

  // ---------------------------------------------------------------- what operations do

  /** OS_AsyncRead and OS_AsyncWrite. */
  function ArmBoard(b: Board, fd: nat, write: bool, proc: Proc): Board
    requires b.table != []
  {
    b.(table := GrownTo(b.table, Index(fd, write))[Index(fd, write) := AioInfo(true, fd, b.next, proc)],
       s := AddWaiting(b.s, fd, write),
       maxFd := if fd > b.maxFd then fd else b.maxFd,
       next := b.next + 1)
  }

  function Cleared(table: seq<AioInfo>, i: nat): seq<AioInfo>
    requires i < |table|
  {
    if table[i].inUse then table[i := table[i].(inUse := false)] else table
  }

  /** One direction of OS_Close; the counters stay as they are. */
  function DropBoard(b: Board, fd: nat, write: bool): Board
    requires Index(fd, write) < |b.table|
  {
    var e := b.table[Index(fd, write)];
    b.(table := Cleared(b.table, Index(fd, write)),
       s := Without(b.s, fd, write),
       closed := if e.inUse then b.closed + [e.ticket] else b.closed,
       lostRd := b.lostRd + if !write && fd in b.s.readPosted then 1 else 0,
       lostWr := b.lostWr + if write && fd in b.s.writePosted then 1 else 0)
  }

  /** OS_Close of a descriptor that the table covers. */
  function CloseBoard(b: Board, fd: nat): Board
    requires Index(fd, true) < |b.table|
  {
    DropBoard(DropBoard(b, fd, false), fd, true).(maxFd := if b.maxFd == fd then b.maxFd - 1 else b.maxFd)
  }

  /** One step of a callback. */
  function Act(b: Board, a: Action): (r: Outcome)
    requires b.table != []
    ensures r.Ran? ==> |b.table| <= |r.board.table| && Fewer(b, r.board)
  {
    match a
    case ArmFor(fd, write, proc) =>
      if InUse(b.table, fd, write) then Halted(Asserted) else Ran(ArmBoard(b, fd, write, proc))
    case CloseFd(fd) =>
      if Index(fd, true) < |b.table| then Ran(CloseBoard(b, fd)) else Halted(Strayed)
  }

  /** Posted operations have only become fewer. */
  predicate Fewer(b: Board, c: Board) {
    c.s.readPosted <= b.s.readPosted && c.s.writePosted <= b.s.writePosted
  }

  /** A whole callback. */
  function Script(b: Board, actions: seq<Action>): (r: Outcome)
    requires b.table != []
    ensures r.Ran? ==> |b.table| <= |r.board.table| && Fewer(b, r.board)
    ensures r.Halted? ==> r.halt != Running
    decreases |actions|
  {
    if actions == [] then Ran(b)
    else
      match Act(b, actions[0])
      case Ran(c) => Script(c, actions[1..])
      case h => h
  }

  /** A posted operation is done and taken off the table; its callback is about to be called. */
  function FireBoard(b: Board, fd: nat, write: bool): Board
    requires InUse(b.table, fd, write)
  {
    var e := b.table[Index(fd, write)];
    b.(table := b.table[Index(fd, write) := e.(inUse := false)],
       s := Unpost(b.s, fd, write),
       numRd := if write then b.numRd else b.numRd - 1,
       numWr := if write then b.numWr - 1 else b.numWr,
       called := b.called + [e.ticket])
  }

  /** One descriptor and direction in the dispatch loop. */
  function DispatchSlot(b: Board, fd: nat, write: bool): (r: Outcome)
    requires b.table != []
    ensures r.Ran? ==> |b.table| <= |r.board.table| && Fewer(b, r.board)
    ensures r.Ran? && r.board != b ==> r.board.s.readPosted < b.s.readPosted || r.board.s.writePosted < b.s.writePosted
    ensures r.Halted? ==> r.halt != Running
  {
    if fd in Posted(b.s, write) && InUse(b.table, fd, write)
    then Script(FireBoard(b, fd, write), b.table[Index(fd, write)].proc.actions)
    else Ran(b)
  }

  /** One turn of the dispatch loop: the read of `fd`, then its write. */
  function DispatchPair(b: Board, fd: nat): (r: Outcome)
    requires b.table != []
    ensures r.Ran? ==> |b.table| <= |r.board.table| && Fewer(b, r.board)
    ensures r.Ran? && r.board != b ==> r.board.s.readPosted < b.s.readPosted || r.board.s.writePosted < b.s.writePosted
    ensures r.Halted? ==> r.halt != Running
  {
    match DispatchSlot(b, fd, false)
    case Ran(c) => DispatchSlot(c, fd, true)
    case h => h
  }

  /** The dispatch loop from `fd` on; callbacks may move maxFd either way under it. */
  function DispatchFrom(b: Board, fd: nat): (r: Outcome)
    requires b.table != []
    ensures r.Halted? ==> r.halt != Running
    decreases b.s.readPosted, b.s.writePosted, b.maxFd - fd
  {
    if fd > b.maxFd then Ran(b)
    else
      match DispatchPair(b, fd)
      case Ran(c) => DispatchFrom(c, fd + 1)
      case h => h
  }

  /** select reports `readable` and `writable`; the waiting ones among them become posted. */
  function SelectSets(s: Sets, readable: set<nat>, writable: set<nat>): Sets {
    Sets(s.readWaiting - readable, s.writeWaiting - writable, s.readWaiting * readable, s.writeWaiting * writable)
  }

  function SelectBoard(b: Board, readable: set<nat>, writable: set<nat>): Board {
    b.(s := SelectSets(b.s, readable, writable),
       numRd := Size(b.s.readWaiting * readable),
       numWr := Size(b.s.writeWaiting * writable))
  }

  /** What a call of OS_DoIo dispatches from: what is posted, or what select posts. */
  function ReadyBoard(b: Board, readable: set<nat>, writable: set<nat>): Board {
    if b.numRd == 0 && b.numWr == 0 then SelectBoard(b, readable, writable) else b
  }

  /** OS_DoIo. */
  function DoIoBoard(b: Board, readable: set<nat>, writable: set<nat>): (r: Outcome)
    requires b.table != []
    ensures r.Halted? ==> r.halt != Running
  {
    var c := ReadyBoard(b, readable, writable);
    if c.numRd == 0 && c.numWr == 0 then Ran(c) else DispatchFrom(c, 0)
  }

  // ---------------------------------------------------------------- what is kept

  /** An entry is in use exactly when its descriptor waits for select or is posted, never both; none exceeds maxFd. */
  ghost predicate Linked(table: seq<AioInfo>, s: Sets, maxFd: int) {
    && |table| >= 16 && |table| % 2 == 0
    && (forall fd: nat, write: bool :: fd in Waiting(s, write) ==>
          && InUse(table, fd, write) && table[Index(fd, write)].fd == fd
          && fd <= maxFd && fd !in Posted(s, write))
    && (forall fd: nat, write: bool :: fd in Posted(s, write) ==>
          InUse(table, fd, write) && table[Index(fd, write)].fd == fd && fd <= maxFd)
    && (forall fd: nat, write: bool :: InUse(table, fd, write) ==> fd in Waiting(s, write) || fd in Posted(s, write))
  }

  ghost predicate Live(table: seq<AioInfo>, t: nat) {
    exists i :: 0 <= i < |table| && table[i].inUse && table[i].ticket == t
  }

  predicate Retired(called: seq<nat>, closed: seq<nat>, t: nat) {
    t in called || t in closed
  }

  ghost predicate Distinct(s: seq<nat>) {
    forall k, l :: 0 <= k < l < |s| ==> s[k] != s[l]
  }

  /**
    Every ticket given out is either in use, in one slot, or retired, once: called or closed
    and not both.
   */
  ghost predicate Ticketed(table: seq<AioInfo>, next: nat, called: seq<nat>, closed: seq<nat>) {
    && (forall i :: 0 <= i < |table| && table[i].inUse ==>
          table[i].ticket < next && !Retired(called, closed, table[i].ticket))
    && (forall i, j :: 0 <= i < j < |table| && table[i].inUse && table[j].inUse ==> table[i].ticket != table[j].ticket)
    && (forall t: nat :: t < next ==> Live(table, t) || Retired(called, closed, t))
    && (forall t: nat :: Retired(called, closed, t) ==> t < next)
    && (forall t :: t in called ==> t !in closed)
    && Distinct(called) && Distinct(closed)
  }

  /** The counters say how many operations are posted, and how many were when they were closed. */
  predicate Counted(s: Sets, numRd: int, numWr: int, lostRd: nat, lostWr: nat) {
    numRd == Size(s.readPosted) + lostRd && numWr == Size(s.writePosted) + lostWr
  }

  ghost predicate Good(b: Board) {
    && Linked(b.table, b.s, b.maxFd)
    && Ticketed(b.table, b.next, b.called, b.closed)
    && Counted(b.s, b.numRd, b.numWr, b.lostRd, b.lostWr)
  }

  lemma GoodTable(b: Board)
    requires Good(b)
    ensures |b.table| >= 16 && |b.table| % 2 == 0
  {
  }

  // ---------------------------------------------------------------- arming

  lemma ArmUses(table: seq<AioInfo>, t: seq<AioInfo>, fd: nat, write: bool, e: AioInfo)
    requires GrowsTo(table, t) && Index(fd, write) < |t| && e.inUse
    ensures var t' := t[Index(fd, write) := e];
            forall f: nat, w: bool {:trigger InUse(t', f, w)} {:trigger InUse(table, f, w)} ::
              && (InUse(t', f, w) <==> InUse(table, f, w) || (f == fd && w == write))
              && (InUse(table, f, w) && !(f == fd && w == write) ==> t'[Index(f, w)] == table[Index(f, w)])
  {
  }

  /** An unused slot is armed in a table that may have grown for it. */
  lemma ArmLinks(table: seq<AioInfo>, s: Sets, maxFd: int, t: seq<AioInfo>, fd: nat, write: bool, e: AioInfo)
    requires Linked(table, s, maxFd) && e.inUse && e.fd == fd
    requires GrowsTo(table, t) && Index(fd, write) < |t| && !InUse(table, fd, write)
    ensures Linked(t[Index(fd, write) := e], AddWaiting(s, fd, write), if fd > maxFd then fd else maxFd)
  {
    ArmUses(table, t, fd, write, e);
    var s' := AddWaiting(s, fd, write);
    assert forall f: nat, w: bool :: f in Waiting(s', w) <==> f in Waiting(s, w) || (f == fd && w == write);
    assert forall w: bool :: Posted(s', w) == Posted(s, w);
  }

  lemma ArmLive(table: seq<AioInfo>, t: seq<AioInfo>, i: nat, e: AioInfo)
    requires GrowsTo(table, t) && i < |t| && e.inUse && (i < |table| ==> !table[i].inUse)
    ensures forall k {:trigger Live(t[i := e], k)} {:trigger Live(table, k)} ::
              Live(t[i := e], k) <==> Live(table, k) || k == e.ticket
  {
    var t' := t[i := e];
    assert t'[i] == e;
    forall k
      ensures Live(t', k) <==> Live(table, k) || k == e.ticket
    {
      if Live(table, k) {
        var j :| 0 <= j < |table| && table[j].inUse && table[j].ticket == k;
        assert t'[j] == table[j];
      }
      if Live(t', k) {
        var j :| 0 <= j < |t'| && t'[j].inUse && t'[j].ticket == k;
        assert j != i ==> t'[j] == t[j];
      }
    }
  }

  /** A new ticket goes into a slot that is not in use. */
  lemma ArmTickets(table: seq<AioInfo>, next: nat, called: seq<nat>, closed: seq<nat>, t: seq<AioInfo>, i: nat,
                   e: AioInfo)
    requires Ticketed(table, next, called, closed) && GrowsTo(table, t) && i < |t|
    requires e.inUse && e.ticket == next && (i < |table| ==> !table[i].inUse)
    ensures Ticketed(t[i := e], next + 1, called, closed)
  {
    hide Live, Distinct;
    ArmLive(table, t, i, e);
    assert forall k: nat :: k < next + 1 ==> Live(t[i := e], k) || Retired(called, closed, k);
  }

  lemma ArmKeeps(b: Board, fd: nat, write: bool, proc: Proc)
    requires Good(b) && !InUse(b.table, fd, write)
    ensures b.table != [] && Good(ArmBoard(b, fd, write, proc))
  {
    hide Linked, Ticketed, Size;
    GoodTable(b);
    var t := GrownTo(b.table, Index(fd, write));
    var e := AioInfo(true, fd, b.next, proc);
    ArmLinks(b.table, b.s, b.maxFd, t, fd, write, e);
    ArmTickets(b.table, b.next, b.called, b.closed, t, Index(fd, write), e);
  }

  // ---------------------------------------------------------------- closing and calling

  lemma ClearedLive(table: seq<AioInfo>, i: nat, k: nat)
    requires i < |table| && table[i].inUse
    ensures Live(table, k) ==> Live(Cleared(table, i), k) || k == table[i].ticket
  {
    if Live(table, k) {
      var j :| 0 <= j < |table| && table[j].inUse && table[j].ticket == k;
      assert j != i ==> Cleared(table, i)[j] == table[j];
    }
  }

  /** A slot is given up and its ticket is retired, one way or the other. */
  lemma ClearTickets(table: seq<AioInfo>, next: nat, called: seq<nat>, closed: seq<nat>, i: nat)
    requires Ticketed(table, next, called, closed) && i < |table| && table[i].inUse
    ensures Ticketed(Cleared(table, i), next, called + [table[i].ticket], closed)
    ensures Ticketed(Cleared(table, i), next, called, closed + [table[i].ticket])
  {
    hide Live;
    var e, t' := table[i], Cleared(table, i);
    assert forall k :: Retired(called + [e.ticket], closed, k) <==> Retired(called, closed, k) || k == e.ticket;
    assert forall k :: Retired(called, closed + [e.ticket], k) <==> Retired(called, closed, k) || k == e.ticket;
    forall k: nat | k < next
      ensures Live(t', k) || Retired(called, closed, k) || k == e.ticket
    {
      ClearedLive(table, i, k);
      assert Live(table, k) || Retired(called, closed, k);
    }
    assert !Retired(called, closed, e.ticket);
  }

  lemma DropLinks(table: seq<AioInfo>, s: Sets, maxFd: int, fd: nat, write: bool)
    requires Linked(table, s, maxFd) && Index(fd, write) < |table|
    ensures var t' := Cleared(table, Index(fd, write));
            Linked(t', Without(s, fd, write), maxFd) && !InUse(t', fd, write)
  {
    var t' := Cleared(table, Index(fd, write));
    var s' := Without(s, fd, write);
    SlotsApart(fd, write);
    assert forall f: nat, w: bool :: InUse(t', f, w) <==> InUse(table, f, w) && !(f == fd && w == write);
    assert forall f: nat, w: bool :: f in Waiting(s', w) <==> f in Waiting(s, w) && !(f == fd && w == write);
    assert forall f: nat, w: bool :: f in Posted(s', w) <==> f in Posted(s, w) && !(f == fd && w == write);
  }

  /** One direction of a closed descriptor is given up. */
  lemma DropKeeps(b: Board, fd: nat, write: bool)
    requires Good(b) && Index(fd, write) < |b.table|
    ensures Good(DropBoard(b, fd, write)) && !InUse(DropBoard(b, fd, write).table, fd, write)
  {
    hide Linked, Ticketed, Size;
    DropLinks(b.table, b.s, b.maxFd, fd, write);
    if b.table[Index(fd, write)].inUse {
      ClearTickets(b.table, b.next, b.called, b.closed, Index(fd, write));
    }
    SizeChanges(Posted(b.s, write), fd);
  }

  lemma MaxFdDrops(table: seq<AioInfo>, s: Sets, fd: nat)
    requires Linked(table, s, fd) && !InUse(table, fd, false) && !InUse(table, fd, true)
    ensures Linked(table, s, fd - 1)
  {
  }

  lemma CloseKeeps(b: Board, fd: nat)
    requires Good(b) && Index(fd, true) < |b.table|
    ensures Good(CloseBoard(b, fd))
  {
    hide Linked, Ticketed, Size;
    DropKeeps(b, fd, false);
    var c := DropBoard(b, fd, false);
    DropKeeps(c, fd, true);
    var d := DropBoard(c, fd, true);
    assert !InUse(d.table, fd, false);
    if b.maxFd == fd {
      MaxFdDrops(d.table, d.s, fd);
    }
  }

  lemma PostedInUse(b: Board, fd: nat, write: bool)
    requires Linked(b.table, b.s, b.maxFd) && fd in Posted(b.s, write)
    ensures InUse(b.table, fd, write) && fd !in Waiting(b.s, write) && fd <= b.maxFd
  {
  }

  /** A posted operation is taken off the table and its callback called. */
  lemma FireKeeps(b: Board, fd: nat, write: bool)
    requires Good(b) && fd in Posted(b.s, write)
    ensures InUse(b.table, fd, write) && Good(FireBoard(b, fd, write))
  {
    hide Linked, Ticketed, Size;
    PostedInUse(b, fd, write);
    DropLinks(b.table, b.s, b.maxFd, fd, write);
    ClearTickets(b.table, b.next, b.called, b.closed, Index(fd, write));
    SizeChanges(Posted(b.s, write), fd);
    assert Unpost(b.s, fd, write) == Without(b.s, fd, write) by {
      SizeChanges(Waiting(b.s, write), fd);
    }
  }

  // ---------------------------------------------------------------- what a run of steps does to what was there

  /**
    Operations are only retired, an operation that is not stays in its slot as it was, and
    posted operations only become fewer.
   */
  ghost predicate Later(b: Board, c: Board) {
    && b.called <= c.called && b.closed <= c.closed
    && b.next <= c.next && b.lostRd <= c.lostRd && b.lostWr <= c.lostWr
    && |b.table| <= |c.table| && Fewer(b, c)
    && Survives(b.table, c.table, c.called, c.closed)
  }

  ghost predicate Survives(table: seq<AioInfo>, t: seq<AioInfo>, called: seq<nat>, closed: seq<nat>) {
    && |table| <= |t|
    && forall i :: 0 <= i < |table| && table[i].inUse && !Retired(called, closed, table[i].ticket) ==> t[i] == table[i]
  }

  lemma LaterLater(b: Board, c: Board, d: Board)
    requires Later(b, c) && Later(c, d)
    ensures Later(b, d)
  {
    assert forall t :: Retired(c.called, c.closed, t) ==> Retired(d.called, d.closed, t);
  }

  lemma DropLater(b: Board, fd: nat, write: bool)
    requires Index(fd, write) < |b.table|
    ensures Later(b, DropBoard(b, fd, write))
  {
  }

  lemma ArmLater(b: Board, fd: nat, write: bool, proc: Proc)
    requires b.table != [] && !InUse(b.table, fd, write)
    ensures Later(b, ArmBoard(b, fd, write, proc))
  {
  }

  lemma FireLater(b: Board, fd: nat, write: bool)
    requires InUse(b.table, fd, write)
    ensures Later(b, FireBoard(b, fd, write))
  {
  }

  /** The tickets of the posted operations. */
  ghost function Due(table: seq<AioInfo>, s: Sets): set<nat> {
    set fd: nat, write: bool | fd in Posted(s, write) && InUse(table, fd, write) :: table[Index(fd, write)].ticket
  }

  function Members(s: seq<nat>): set<nat> {
    set t | t in s
  }

  /** What was due is still due, or its callback has been called since, or its descriptor closed. */
  ghost predicate Accounted(b: Board, c: Board) {
    && b.called <= c.called
    && Due(b.table, b.s) == Due(c.table, c.s) + Members(c.called[|b.called|..]) + Due(b.table, b.s) * Members(c.closed)
  }

  lemma MembersJoin(a: seq<nat>, b: seq<nat>)
    ensures Members(a + b) == Members(a) + Members(b)
  {
  }

  lemma NoMembers(s: seq<nat>)
    ensures Members(s[|s|..]) == {}
  {
  }

  lemma OneMember(s: seq<nat>, t: nat)
    ensures Members((s + [t])[|s|..]) == {t}
  {
    assert (s + [t])[|s|..] == [t];
  }

  lemma AccountedSets(b: set<nat>, c: set<nat>, d: set<nat>, n: set<nat>, m: set<nat>, k: set<nat>, l: set<nat>)
    requires b == c + n + b * k && c == d + m + c * l && k <= l
    ensures b == d + (n + m) + b * l
  {
  }

  lemma AccountedLater(b: Board, c: Board, d: Board)
    requires Accounted(b, c) && Accounted(c, d) && c.closed <= d.closed
    ensures Accounted(b, d)
  {
    hide Due, Members;
    assert d.called[|b.called|..] == c.called[|b.called|..] + d.called[|c.called|..];
    MembersJoin(c.called[|b.called|..], d.called[|c.called|..]);
    assert Members(c.closed) <= Members(d.closed) by {
      assert d.closed == c.closed + d.closed[|c.closed|..];
      MembersJoin(c.closed, d.closed[|c.closed|..]);
    }
    AccountedSets(Due(b.table, b.s), Due(c.table, c.s), Due(d.table, d.s), Members(c.called[|b.called|..]),
                  Members(d.called[|c.called|..]), Members(c.closed), Members(d.closed));
  }

  /** Posted entries of `b` that `c` still has posted are the same ones. */
  lemma DueAfterArm(b: Board, fd: nat, write: bool, proc: Proc)
    requires Good(b) && !InUse(b.table, fd, write)
    ensures b.table != [] && Accounted(b, ArmBoard(b, fd, write, proc))
  {
    hide Ticketed, Counted;
    GoodTable(b);
    SlotsApart(fd, write);
    var c := ArmBoard(b, fd, write, proc);
    assert forall f: nat, w: bool :: f in Posted(c.s, w) <==> f in Posted(b.s, w);
    assert forall f: nat, w: bool :: f in Posted(b.s, w) ==>
                                       InUse(b.table, f, w) && c.table[Index(f, w)] == b.table[Index(f, w)];
    assert Due(c.table, c.s) == Due(b.table, b.s);
    NoMembers(b.called);
    DueNotRetired(b);
  }

  lemma DueNotRetired(b: Board)
    requires Ticketed(b.table, b.next, b.called, b.closed)
    ensures Due(b.table, b.s) !! Members(b.called) && Due(b.table, b.s) !! Members(b.closed)
    ensures forall t :: t in Due(b.table, b.s) ==> t < b.next
  {
    forall t | t in Due(b.table, b.s)
      ensures t < b.next && !Retired(b.called, b.closed, t)
    {
    }
  }

  lemma DueAfterClear(table: seq<AioInfo>, s: Sets, maxFd: int, fd: nat, write: bool)
    requires Linked(table, s, maxFd) && Index(fd, write) < |table|
    ensures var e := table[Index(fd, write)];
            var due := Due(Cleared(table, Index(fd, write)), Without(s, fd, write));
            Due(table, s) == if fd in Posted(s, write) then due + {e.ticket} else due
  {
    var t' := Cleared(table, Index(fd, write));
    var s' := Without(s, fd, write);
    SlotsApart(fd, write);
    assert forall f: nat, w: bool :: f in Posted(s', w) <==> f in Posted(s, w) && !(f == fd && w == write);
    assert forall f: nat, w: bool :: f in Posted(s', w) ==> InUse(t', f, w) && t'[Index(f, w)] == table[Index(f, w)];
  }

  lemma DroppedSets(b: set<nat>, c: set<nat>, k: set<nat>, t: nat, posted: bool)
    requires b == (if posted then c + {t} else c) && b !! k && (!posted ==> t !in b)
    ensures b == c + {} + b * (k + {t})
  {
  }

  lemma DueAfterDrop(b: Board, fd: nat, write: bool)
    requires Good(b) && Index(fd, write) < |b.table|
    ensures Accounted(b, DropBoard(b, fd, write))
  {
    hide Linked, Ticketed, Counted, Due, Members;
    var c, e, posted := DropBoard(b, fd, write), b.table[Index(fd, write)], fd in Posted(b.s, write);
    DueAfterClear(b.table, b.s, b.maxFd, fd, write);
    DueNotRetired(b);
    NoMembers(b.called);
    if posted {
      PostedInUse(b, fd, write);
    }
    if e.inUse {
      MembersJoin(b.closed, [e.ticket]);
      OneMember([], e.ticket);
      assert ([] + [e.ticket])[0..] == [e.ticket];
      if !posted {
        OtherTicket(b, fd, write);
      }
      DroppedSets(Due(b.table, b.s), Due(c.table, c.s), Members(b.closed), e.ticket, posted);
    }
  }

  lemma OtherTicket(b: Board, fd: nat, write: bool)
    requires Ticketed(b.table, b.next, b.called, b.closed) && InUse(b.table, fd, write) && fd !in Posted(b.s, write)
    ensures b.table[Index(fd, write)].ticket !in Due(b.table, b.s)
  {
    SlotsApart(fd, write);
  }

  lemma DueAfterFire(b: Board, fd: nat, write: bool)
    requires Good(b) && fd in Posted(b.s, write)
    ensures InUse(b.table, fd, write) && Accounted(b, FireBoard(b, fd, write))
  {
    hide Linked, Ticketed, Counted, Due, Members;
    PostedInUse(b, fd, write);
    DueAfterClear(b.table, b.s, b.maxFd, fd, write);
    DueNotRetired(b);
    OneMember(b.called, b.table[Index(fd, write)].ticket);
    assert Unpost(b.s, fd, write) == Without(b.s, fd, write) by {
      SizeChanges(Waiting(b.s, write), fd);
    }
  }

  // ---------------------------------------------------------------- whole callbacks and whole passes

  /** What is posted has been posted before, in the same entry. */
  ghost predicate Steady(b: Board, c: Board) {
    forall f: nat, w: bool :: f in Posted(c.s, w) ==>
      && f in Posted(b.s, w) && InUse(b.table, f, w) && InUse(c.table, f, w)
      && c.table[Index(f, w)] == b.table[Index(f, w)]
  }

  lemma SteadySteady(b: Board, c: Board, d: Board)
    requires Steady(b, c) && Steady(c, d)
    ensures Steady(b, d)
  {
  }

  lemma SteadyArm(b: Board, fd: nat, write: bool, proc: Proc)
    requires Good(b) && !InUse(b.table, fd, write)
    ensures b.table != [] && Steady(b, ArmBoard(b, fd, write, proc))
  {
    hide Ticketed, Counted;
    GoodTable(b);
    SlotsApart(fd, write);
    var c := ArmBoard(b, fd, write, proc);
    assert forall f: nat, w: bool :: f in Posted(c.s, w) <==> f in Posted(b.s, w);
  }

  lemma SteadyClear(b: Board, c: Board, fd: nat, write: bool)
    requires Good(b) && Index(fd, write) < |b.table|
    requires c.table == Cleared(b.table, Index(fd, write)) && c.s == Without(b.s, fd, write)
    ensures Steady(b, c)
  {
    hide Ticketed, Counted;
    SlotsApart(fd, write);
    assert forall f: nat, w: bool :: f in Posted(c.s, w) <==> f in Posted(b.s, w) && !(f == fd && w == write);
  }

  /** `c` comes after `b`, in order, with everything that was due accounted for. */
  ghost predicate Follows(b: Board, c: Board) {
    Good(c) && Later(b, c) && Accounted(b, c) && Steady(b, c)
  }

  lemma FollowsFollows(b: Board, c: Board, d: Board)
    requires Follows(b, c) && Follows(c, d)
    ensures Follows(b, d)
  {
    hide Good, Accounted, Survives, Steady;
    SteadySteady(b, c, d);
    LaterLater(b, c, d);
    AccountedLater(b, c, d);
  }

  lemma FollowsItself(b: Board)
    requires Good(b)
    ensures Follows(b, b)
  {
    hide Good, Due, Members, Steady;
    SteadyItself(b);
    NoMembers(b.called);
    assert Due(b.table, b.s) !! Members(b.closed) by {
      DueTickets(b);
    }
    assert Due(b.table, b.s) * Members(b.closed) == {};
  }

  lemma SteadyItself(b: Board)
    requires Good(b)
    ensures Steady(b, b)
  {
    hide Ticketed, Counted;
  }

  lemma DueTickets(b: Board)
    requires Good(b)
    ensures Due(b.table, b.s) !! Members(b.called) && Due(b.table, b.s) !! Members(b.closed)
    ensures forall t :: t in Due(b.table, b.s) ==> t < b.next
  {
    hide Ticketed, Due, Members;
    DueNotRetired(b);
  }

  function Arms(actions: seq<Action>): nat {
    if actions == [] then 0 else (if actions[0].ArmFor? then 1 else 0) + Arms(actions[1..])
  }

  lemma ActFollows(b: Board, a: Action)
    requires Good(b)
    ensures b.table != []
    ensures var r := Act(b, a);
            r.Ran? ==>
              && Follows(b, r.board) && r.board.called == b.called
              && r.board.next == b.next + if a.ArmFor? then 1 else 0
  {
    hide Good, Later, Accounted, Steady, InUse, ArmBoard, DropBoard;
    GoodTable(b);
    match a
    case ArmFor(fd, write, proc) =>
      if !InUse(b.table, fd, write) {
        ArmFollows(b, fd, write, proc);
      }
    case CloseFd(fd) =>
      if Index(fd, true) < |b.table| {
        CloseFollows(b, fd);
      }
  }

  lemma ArmFollows(b: Board, fd: nat, write: bool, proc: Proc)
    requires Good(b) && !InUse(b.table, fd, write)
    ensures b.table != []
    ensures var c := ArmBoard(b, fd, write, proc); Follows(b, c) && c.called == b.called && c.next == b.next + 1
  {
    hide Good, Later, Accounted, Steady, GrownTo;
    GoodTable(b);
    ArmKeeps(b, fd, write, proc);
    ArmLater(b, fd, write, proc);
    DueAfterArm(b, fd, write, proc);
    SteadyArm(b, fd, write, proc);
  }

  lemma FollowsGood(b: Board, c: Board)
    requires Follows(b, c)
    ensures Good(c) && c.table != []
  {
    hide Good, Later, Accounted, Steady;
    GoodTable(c);
  }

  lemma DropFollows(b: Board, fd: nat, write: bool)
    requires Good(b) && Index(fd, write) < |b.table|
    ensures var c := DropBoard(b, fd, write);
            Follows(b, c) && c.called == b.called && c.next == b.next && |c.table| == |b.table|
  {
    hide Good, Later, Accounted, Steady;
    DropKeeps(b, fd, write);
    DropLater(b, fd, write);
    DueAfterDrop(b, fd, write);
    SteadyClear(b, DropBoard(b, fd, write), fd, write);
  }

  lemma CloseFollows(b: Board, fd: nat)
    requires Good(b) && Index(fd, true) < |b.table|
    ensures Follows(b, CloseBoard(b, fd))
    ensures CloseBoard(b, fd).called == b.called && CloseBoard(b, fd).next == b.next
  {
    hide Good, DropBoard;
    var c := DropBoard(b, fd, false);
    DropFollows(b, fd, false);
    var d := DropBoard(c, fd, true);
    DropFollows(c, fd, true);
    FollowsFollows(b, c, d);
    CloseKeeps(b, fd);
  }

  lemma ClosedSlots(b: Board, fd: nat)
    requires Index(fd, true) < |b.table|
    ensures var t := CloseBoard(b, fd).table; !InUse(t, fd, false) && !InUse(t, fd, true)
  {
    SlotsApart(fd, true);
  }

  /** A descriptor beyond the table is in none of the sets. */
  lemma NotCovered(b: Board, fd: nat)
    requires Good(b) && Index(fd, true) >= |b.table|
    ensures b.s.readWaiting - {fd} == b.s.readWaiting && b.s.readPosted - {fd} == b.s.readPosted
  {
    assert fd !in Waiting(b.s, false) && fd !in Posted(b.s, false);
  }

  /** A callback that does not halt the program keeps everything in step, and each of its armings gets a ticket. */
  lemma {:induction false} ScriptFollows(b: Board, actions: seq<Action>)
    requires Good(b)
    ensures b.table != []
    ensures var r := Script(b, actions);
            r.Ran? ==> Follows(b, r.board) && r.board.called == b.called && r.board.next == b.next + Arms(actions)
    decreases |actions|
  {
    hide Good, Later, Accounted, Steady, Act;
    GoodTable(b);
    if actions == [] {
      FollowsItself(b);
    } else {
      ActFollows(b, actions[0]);
      var r := Act(b, actions[0]);
      if r.Ran? {
        ScriptFollows(r.board, actions[1..]);
        var q := Script(r.board, actions[1..]);
        if q.Ran? {
          FollowsFollows(b, r.board, q.board);
        }
      }
    }
  }

  lemma SlotFollows(b: Board, fd: nat, write: bool)
    requires Good(b)
    ensures b.table != []
    ensures var r := DispatchSlot(b, fd, write);
            r.Ran? ==> Follows(b, r.board) && fd !in Posted(r.board.s, write)
  {
    hide Good, Later, Accounted, Steady, Script, FireBoard;
    GoodTable(b);
    if fd in Posted(b.s, write) {
      FireFollows(b, fd, write);
      var c, actions := FireBoard(b, fd, write), b.table[Index(fd, write)].proc.actions;
      FireUnposts(b, fd, write);
      ScriptFollows(c, actions);
      var r := Script(c, actions);
      if r.Ran? {
        FollowsFollows(b, c, r.board);
      }
    } else {
      FollowsItself(b);
    }
  }

  lemma FireSteady(b: Board, fd: nat, write: bool)
    requires Good(b) && fd in Posted(b.s, write)
    ensures InUse(b.table, fd, write) && Steady(b, FireBoard(b, fd, write))
  {
    hide Linked, Ticketed, Counted, Steady;
    PostedInUse(b, fd, write);
    assert Unpost(b.s, fd, write) == Without(b.s, fd, write) by {
      SizeChanges(Waiting(b.s, write), fd);
    }
    SteadyClear(b, FireBoard(b, fd, write), fd, write);
  }

  lemma EmptyScript(b: Board)
    requires b.table != []
    ensures Script(b, []) == Ran(b)
  {
  }

  lemma FireFollows(b: Board, fd: nat, write: bool)
    requires Good(b) && fd in Posted(b.s, write)
    ensures InUse(b.table, fd, write) && Follows(b, FireBoard(b, fd, write))
  {
    hide Good, Later, Accounted, Steady, FireBoard;
    FireKeeps(b, fd, write);
    FireLater(b, fd, write);
    DueAfterFire(b, fd, write);
    FireSteady(b, fd, write);
  }

  lemma FireUnposts(b: Board, fd: nat, write: bool)
    requires InUse(b.table, fd, write)
    ensures FireBoard(b, fd, write).s == Unpost(b.s, fd, write) && FireBoard(b, fd, write).table != []
  {
  }

  lemma ScriptStep(b: Board, actions: seq<Action>, i: nat)
    requires b.table != [] && i < |actions|
    ensures Script(b, actions[i..]) == match Act(b, actions[i]) case Ran(c) => Script(c, actions[i + 1..]) case h => h
  {
    hide Act;
    assert actions[i..][1..] == actions[i + 1..];
  }

  lemma PairFollows(b: Board, fd: nat)
    requires Good(b)
    ensures b.table != []
    ensures var r := DispatchPair(b, fd);
            r.Ran? ==> Follows(b, r.board) && fd !in r.board.s.readPosted && fd !in r.board.s.writePosted
  {
    hide Good, Later, Accounted, Steady, DispatchSlot;
    SlotFollows(b, fd, false);
    var r := DispatchSlot(b, fd, false);
    if r.Ran? {
      SlotFollows(r.board, fd, true);
      var q := DispatchSlot(r.board, fd, true);
      if q.Ran? {
        FollowsFollows(b, r.board, q.board);
      }
    }
  }

  /** All posted operations are still ahead of the loop. */
  predicate Ahead(b: Board, fd: nat) {
    (forall f :: f in b.s.readPosted ==> fd <= f) && (forall f :: f in b.s.writePosted ==> fd <= f)
  }

  lemma AheadNext(b: Board, c: Board, fd: nat)
    requires Ahead(b, fd) && Fewer(b, c) && fd !in c.s.readPosted && fd !in c.s.writePosted
    ensures Ahead(c, fd + 1)
  {
  }

  lemma NothingAhead(b: Board, fd: nat)
    requires Good(b) && Ahead(b, fd) && fd > b.maxFd
    ensures b.s.readPosted == {} && b.s.writePosted == {}
  {
    hide Ticketed, Counted;
    assert forall f: nat, w: bool :: f in Posted(b.s, w) ==> f <= b.maxFd;
    assert forall f: nat :: f in b.s.readPosted ==> f in Posted(b.s, false);
    assert forall f: nat :: f in b.s.writePosted ==> f in Posted(b.s, true);
  }

  /**
    A pass that is not halted leaves nothing posted: what was due has been called or closed,
    and every other operation is where it was.
   */
  lemma {:induction false} PassFollows(b: Board, fd: nat)
    requires Good(b) && Ahead(b, fd)
    ensures b.table != []
    ensures var r := DispatchFrom(b, fd);
            r.Ran? ==> Follows(b, r.board) && r.board.s.readPosted == {} && r.board.s.writePosted == {}
    decreases b.s.readPosted, b.s.writePosted, b.maxFd - fd
  {
    hide Good, Later, Accounted, Steady, DispatchPair, Ahead;
    PairFollows(b, fd);
    if fd > b.maxFd {
      FollowsItself(b);
      NothingAhead(b, fd);
    } else {
      var r := DispatchPair(b, fd);
      if r.Ran? {
        AheadNext(b, r.board, fd);
        PassFollows(r.board, fd + 1);
        var q := DispatchFrom(r.board, fd + 1);
        if q.Ran? {
          FollowsFollows(b, r.board, q.board);
        }
      }
    }
  }

  // ---------------------------------------------------------------- OS_DoIo

  lemma NoneLost(b: Board)
    requires Good(b)
    ensures b.numRd == 0 && b.numWr == 0 ==>
              b.s.readPosted == {} && b.s.writePosted == {} && b.lostRd == 0 && b.lostWr == 0
    ensures b.s.readPosted == {} && b.s.writePosted == {} ==> b.numRd == b.lostRd && b.numWr == b.lostWr
  {
    hide Linked, Ticketed, Size;
    SizeChanges(b.s.readPosted, 0);
    SizeChanges(b.s.writePosted, 0);
  }

  lemma SelectLinks(table: seq<AioInfo>, s: Sets, maxFd: int, readable: set<nat>, writable: set<nat>)
    requires Linked(table, s, maxFd) && s.readPosted == {} && s.writePosted == {}
    ensures Linked(table, SelectSets(s, readable, writable), maxFd)
  {
    var s' := SelectSets(s, readable, writable);
    assert forall f: nat, w: bool :: f in Waiting(s', w) || f in Posted(s', w) <==> f in Waiting(s, w);
  }

  /** What OS_DoIo dispatches from is in step too. */
  lemma ReadyKeeps(b: Board, readable: set<nat>, writable: set<nat>)
    requires Good(b)
    ensures Good(ReadyBoard(b, readable, writable))
  {
    hide Linked, Ticketed, Size;
    NoneLost(b);
    if b.numRd == 0 && b.numWr == 0 {
      SelectLinks(b.table, b.s, b.maxFd, readable, writable);
    }
  }

  lemma NothingDue(b: Board)
    requires b.s.readPosted == {} && b.s.writePosted == {}
    ensures Due(b.table, b.s) == {} && Ahead(b, 0)
  {
  }

  /** The tickets whose callbacks a call of OS_DoIo will call, unless another callback closes their descriptor. */
  ghost function Agenda(b: Board, readable: set<nat>, writable: set<nat>): set<nat> {
    Due(b.table, ReadyBoard(b, readable, writable).s)
  }

  /** Tickets given out since are in use or closed. */
  lemma NewTickets(b: Board, d: Board)
    requires Good(b) && Good(d) && b.called <= d.called
    requires forall t :: t in Members(d.called[|b.called|..]) ==> t < b.next
    ensures forall t: nat :: b.next <= t < d.next ==> Live(d.table, t) || t in d.closed
  {
    hide Linked, Counted, Live, Distinct;
    forall t: nat | b.next <= t < d.next
      ensures t !in d.called
    {
      var since := d.called[|b.called|..];
      assert d.called == b.called + since;
      assert t in since ==> t in Members(since);
      assert t in b.called ==> Retired(b.called, b.closed, t);
    }
    assert forall t: nat :: t < d.next && !Live(d.table, t) ==> Retired(d.called, d.closed, t);
  }

  /**
    A call of OS_DoIo that no callback halts: everything on the agenda is called or closed,
    and nothing else is called; what callbacks arm waits.
   */
  lemma DoIoFollows(b: Board, readable: set<nat>, writable: set<nat>)
    requires Good(b)
    ensures b.table != []
    ensures var r := DoIoBoard(b, readable, writable);
            r.Ran? ==>
              var d := r.board;
              var agenda := Agenda(b, readable, writable);
              && Follows(ReadyBoard(b, readable, writable), d)
              && d.s.readPosted == {} && d.s.writePosted == {} && d.numRd == d.lostRd && d.numWr == d.lostWr
              && b.called <= d.called && b.closed <= d.closed
              && agenda == Members(d.called[|b.called|..]) + agenda * Members(d.closed)
              && agenda !! Members(b.called) && agenda !! Members(b.closed)
              && (forall t :: t in agenda ==> t < b.next)
              && forall t: nat :: b.next <= t < d.next ==> Live(d.table, t) || t in d.closed
  {
    hide Good, DispatchFrom, Due, Members;
    GoodTable(b);
    var c := ReadyBoard(b, readable, writable);
    ReadyKeeps(b, readable, writable);
    NoneLost(c);
    DueTickets(c);
    var r := DoIoBoard(b, readable, writable);
    if r.Ran? {
      if c.numRd == 0 && c.numWr == 0 {
        FollowsItself(c);
      } else {
        PassFollows(c, 0);
      }
      NothingDue(r.board);
      NoneLost(r.board);
      NewTickets(b, r.board);
    }
  }
}
