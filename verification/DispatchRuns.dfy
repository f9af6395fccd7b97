/**
  When callbacks halt the program, and what passes come to that they do not halt.
 */
module DispatchRuns {
  import opened DispatchSpec

  // ---------------------------------------------------------------- when a callback halts the program

  /** The size to which a table of `n` entries grows to cover `index`. */
  function Fit(n: nat, index: nat): (m: nat)
    requires n > 0
    ensures m >= n && m > index && (index < n ==> m == n)
    decreases index - n
  {
    if index < n then n else Fit(2 * n, index)
  }

  lemma {:induction false} GrownFits(table: seq<AioInfo>, index: nat)
    requires table != []
    ensures |GrownTo(table, index)| == Fit(|table|, index)
    decreases index - |table|
  {
    if index >= |table| {
      GrownFits(Grown(table), index);
    }
  }

  function Max(a: nat, b: nat): nat {
    if a < b then b else a
  }

  lemma {:induction false} FitFit(n: nat, a: nat, b: nat)
    requires n > 0
    ensures Fit(Fit(n, a), b) == Fit(n, Max(a, b))
    decreases Max(a, b) - n
  {
    if a >= n {
      FitFit(2 * n, a, b);
      if b < 2 * n {
        assert Fit(2 * n, Max(a, b)) == Fit(2 * n, a);
      }
    }
  }

  /** The highest slot that a script arms, if any. */
  function Highest(actions: seq<Action>): nat {
    if actions == [] then 0
    else
      var a, h := actions[|actions| - 1], Highest(actions[..|actions| - 1]);
      if a.ArmFor? then Max(h, Index(a.fd, a.write)) else h
  }

  predicate ArmsSlot(a: Action, fd: nat, write: bool) {
    a.ArmFor? && a.fd == fd && a.write == write
  }

  /** Once `actions` are done, the slot is in use: it was, or was armed, and was not closed since. */
  predicate Busy(table: seq<AioInfo>, actions: seq<Action>, fd: nat, write: bool) {
    || (InUse(table, fd, write) && CloseFd(fd) !in actions)
    || exists j :: 0 <= j < |actions| && ArmsSlot(actions[j], fd, write) && CloseFd(fd) !in actions[j..]
  }

  /** The action arms a slot that is in use by then, or closes a descriptor that the table does not cover by then. */
  predicate Clashes(table: seq<AioInfo>, actions: seq<Action>, i: nat)
    requires table != [] && i < |actions|
  {
    match actions[i]
    case ArmFor(fd, write, _) => Busy(table, actions[..i], fd, write)
    case CloseFd(fd) => Index(fd, true) >= Fit(|table|, Highest(actions[..i]))
  }

  lemma BusyNext(table: seq<AioInfo>, actions: seq<Action>, a: Action, fd: nat, write: bool)
    ensures Busy(table, actions + [a], fd, write)
            <==> ArmsSlot(a, fd, write) || (a != CloseFd(fd) && Busy(table, actions, fd, write))
  {
    var more := actions + [a];
    if ArmsSlot(a, fd, write) {
      assert ArmsSlot(more[|actions|], fd, write) && more[|actions|..] == [a];
    } else {
      assert more[|actions|] == a;
      forall j | 0 <= j < |actions|
        ensures more[j] == actions[j] && more[j..] == actions[j..] + [a]
      {
      }
    }
  }

  lemma ActUses(b: Board, a: Action, fd: nat, write: bool)
    requires b.table != [] && Act(b, a).Ran?
    ensures var t := Act(b, a).board.table;
            && (InUse(t, fd, write) <==> ArmsSlot(a, fd, write) || (a != CloseFd(fd) && InUse(b.table, fd, write)))
            && |t| == if a.ArmFor? then Fit(|b.table|, Index(a.fd, a.write)) else |b.table|
  {
    SlotsApart(fd, write);
    if a.ArmFor? {
      GrownFits(b.table, Index(a.fd, a.write));
      ArmUses(b.table, GrownTo(b.table, Index(a.fd, a.write)), a.fd, a.write, AioInfo(true, a.fd, b.next, a.proc));
    } else {
      SlotsApart(a.fd, true);
      SlotsApart(a.fd, false);
    }
  }

  lemma {:induction false} ScriptNext(b: Board, actions: seq<Action>, a: Action)
    requires b.table != []
    ensures Script(b, actions + [a]) == match Script(b, actions) case Ran(c) => Act(c, a) case h => h
    decreases |actions|
  {
    hide Act;
    if actions == [] {
      assert ([] + [a])[0] == a && ([] + [a])[1..] == [];
    } else {
      assert (actions + [a])[0] == actions[0] && (actions + [a])[1..] == actions[1..] + [a];
      var r := Act(b, actions[0]);
      if r.Ran? {
        ScriptNext(r.board, actions[1..], a);
      }
    }
  }

  /** The state of the slots after a script, without running it. */
  lemma {:induction false} ScriptUses(b: Board, actions: seq<Action>)
    requires b.table != [] && Script(b, actions).Ran?
    ensures forall fd: nat, write: bool ::
              InUse(Script(b, actions).board.table, fd, write) <==> Busy(b.table, actions, fd, write)
    ensures |Script(b, actions).board.table| == Fit(|b.table|, Highest(actions))
    decreases |actions|, 1
  {
    if actions != [] {
      var n := |actions| - 1;
      var before, a := actions[..n], actions[n];
      assert actions == before + [a];
      UsesNext(b, before, a);
    }
  }

  lemma {:induction false} UsesNext(b: Board, actions: seq<Action>, a: Action)
    requires b.table != [] && Script(b, actions + [a]).Ran?
    ensures forall fd: nat, write: bool ::
              InUse(Script(b, actions + [a]).board.table, fd, write) <==> Busy(b.table, actions + [a], fd, write)
    ensures |Script(b, actions + [a]).board.table| == Fit(|b.table|, Highest(actions + [a]))
    decreases |actions| + 1, 0
  {
    hide Act, Busy, InUse, Script;
    ScriptNext(b, actions, a);
    ScriptUses(b, actions);
    var c := Script(b, actions).board;
    forall fd: nat, write: bool
      ensures InUse(Act(c, a).board.table, fd, write) <==> Busy(b.table, actions + [a], fd, write)
    {
      ActUses(c, a, fd, write);
      BusyNext(b.table, actions, a, fd, write);
    }
    ActUses(c, a, 0, false);
    assert (actions + [a])[..|actions|] == actions;
    if a.ArmFor? {
      FitFit(|b.table|, Highest(actions), Index(a.fd, a.write));
    }
  }

  lemma NextRuns(b: Board, actions: seq<Action>, i: nat)
    requires b.table != [] && i < |actions| && Script(b, actions[..i]).Ran?
    ensures var r := Script(b, actions[..i + 1]);
            if Clashes(b.table, actions, i) then r == Halted(if actions[i].ArmFor? then Asserted else Strayed)
            else r.Ran?
  {
    hide Busy, InUse, Highest, ArmBoard, CloseBoard, Script;
    assert actions[..i + 1] == actions[..i] + [actions[i]];
    ScriptNext(b, actions[..i], actions[i]);
    ScriptUses(b, actions[..i]);
  }

  /** The first `i` actions of a script run, exactly if none of them clashes. */
  lemma {:induction false} PrefixRuns(b: Board, actions: seq<Action>, i: nat)
    requires b.table != [] && i <= |actions|
    ensures Script(b, actions[..i]).Ran? <==> forall j :: 0 <= j < i ==> !Clashes(b.table, actions, j)
  {
    hide Script, Clashes;
    if i == 0 {
      EmptyScript(b);
    } else {
      PrefixRuns(b, actions, i - 1);
      if Script(b, actions[..i - 1]).Ran? {
        NextRuns(b, actions, i - 1);
      } else {
        assert actions[..i] == actions[..i - 1] + [actions[i - 1]];
        ScriptNext(b, actions[..i - 1], actions[i - 1]);
      }
    }
  }

  lemma {:induction false} ScriptStops(b: Board, actions: seq<Action>, i: nat)
    requires b.table != [] && i <= |actions| && Script(b, actions[..i]).Halted?
    ensures Script(b, actions) == Script(b, actions[..i])
    decreases |actions| - i
  {
    hide Script;
    if i < |actions| {
      assert actions[..i + 1] == actions[..i] + [actions[i]];
      ScriptNext(b, actions[..i], actions[i]);
      ScriptStops(b, actions, i + 1);
    } else {
      assert actions[..i] == actions;
    }
  }

  /** A callback halts the program if and only if one of its actions clashes; the first such action says how. */
  lemma ScriptHalts(b: Board, actions: seq<Action>)
    requires b.table != []
    ensures Script(b, actions).Halted? <==> exists i :: 0 <= i < |actions| && Clashes(b.table, actions, i)
    ensures forall i :: 0 <= i < |actions| && Clashes(b.table, actions, i)
                        && (forall j :: 0 <= j < i ==> !Clashes(b.table, actions, j)) ==>
              Script(b, actions) == Halted(if actions[i].ArmFor? then Asserted else Strayed)
  {
    hide Script, Clashes;
    assert actions[..|actions|] == actions;
    PrefixRuns(b, actions, |actions|);
    forall i | 0 <= i < |actions| && Clashes(b.table, actions, i)
               && (forall j :: 0 <= j < i ==> !Clashes(b.table, actions, j))
      ensures Script(b, actions) == Halted(if actions[i].ArmFor? then Asserted else Strayed)
    {
      PrefixRuns(b, actions, i);
      NextRuns(b, actions, i);
      ScriptStops(b, actions, i + 1);
    }
  }

  // ---------------------------------------------------------------- callbacks that do not get in each other's way

  /**
    A callback of (fd, write) that closes only covered descriptors and arms, each once, only its
    own slot and slots that are not in use.
   */
  ghost predicate Tidy(table: seq<AioInfo>, actions: seq<Action>, fd: nat, write: bool) {
    && (forall a :: a in actions && a.CloseFd? ==> Index(a.fd, true) < |table|)
    && (forall a :: a in actions && a.ArmFor? ==> (a.fd == fd && a.write == write) || !InUse(table, a.fd, a.write))
    && (forall i, j :: 0 <= i < j < |actions| && actions[i].ArmFor? ==>
          !ArmsSlot(actions[j], actions[i].fd, actions[i].write))
  }

  /** No slot is armed by both. */
  ghost predicate Apart(p: seq<Action>, q: seq<Action>) {
    forall a, b :: a in p && b in q && a.ArmFor? ==> !ArmsSlot(b, a.fd, a.write)
  }

  function Called(table: seq<AioInfo>, fd: nat, write: bool): seq<Action>
    requires InUse(table, fd, write)
  {
    table[Index(fd, write)].proc.actions
  }

  /** All posted callbacks are tidy and no two of them arm the same slot. */
  ghost predicate Tame(table: seq<AioInfo>, s: Sets) {
    AllTidy(table, s) && AllApart(table, s)
  }

  ghost predicate AllTidy(table: seq<AioInfo>, s: Sets) {
    forall f: nat, w: bool :: f in Posted(s, w) && InUse(table, f, w) ==> Tidy(table, Called(table, f, w), f, w)
  }

  ghost predicate AllApart(table: seq<AioInfo>, s: Sets) {
    forall f: nat, w: bool, g: nat, v: bool ::
      f in Posted(s, w) && InUse(table, f, w) && g in Posted(s, v) && InUse(table, g, v) && !(f == g && w == v) ==>
        Apart(Called(table, f, w), Called(table, g, v))
  }

  lemma BusyBefore(table: seq<AioInfo>, actions: seq<Action>, fd: nat, write: bool)
    requires Busy(table, actions, fd, write)
    ensures InUse(table, fd, write) || exists j :: 0 <= j < |actions| && ArmsSlot(actions[j], fd, write)
  {
  }

  lemma TidyRuns(b: Board, actions: seq<Action>, fd: nat, write: bool)
    requires b.table != [] && Tidy(b.table, actions, fd, write) && !InUse(b.table, fd, write)
    ensures Script(b, actions).Ran?
  {
    hide Script, Clashes, InUse;
    forall i | 0 <= i < |actions|
      ensures !Clashes(b.table, actions, i)
    {
      TidyStep(b.table, actions, fd, write, i);
    }
    ScriptHalts(b, actions);
  }

  lemma TidyStep(table: seq<AioInfo>, actions: seq<Action>, fd: nat, write: bool, i: nat)
    requires table != [] && Tidy(table, actions, fd, write) && !InUse(table, fd, write) && i < |actions|
    ensures !Clashes(table, actions, i)
  {
    hide Busy, InUse, Highest;
    var a := actions[i];
    if a.ArmFor? && Busy(table, actions[..i], a.fd, a.write) {
      BusyBefore(table, actions[..i], a.fd, a.write);
    }
  }

  /** What a callback leaves in use was in use, or it has armed it. */
  lemma UsedOrArmed(b: Board, actions: seq<Action>)
    requires b.table != [] && Script(b, actions).Ran?
    ensures forall f: nat, w: bool :: InUse(Script(b, actions).board.table, f, w) ==>
              InUse(b.table, f, w) || exists a :: a in actions && ArmsSlot(a, f, w)
  {
    hide Script, Busy, InUse;
    ScriptUses(b, actions);
    forall f: nat, w: bool | Busy(b.table, actions, f, w)
      ensures InUse(b.table, f, w) || exists a :: a in actions && ArmsSlot(a, f, w)
    {
      BusyBefore(b.table, actions, f, w);
    }
  }

  /** One tidy callback of a tame board: it runs, and the others are as tidy as before. */
  lemma TameSlot(b: Board, fd: nat, write: bool)
    requires Good(b) && Tame(b.table, b.s)
    ensures b.table != []
    ensures var r := DispatchSlot(b, fd, write); r.Ran? && Tame(r.board.table, r.board.s)
  {
    hide Good, Later, Accounted, Script, Tame;
    SlotFollows(b, fd, write);
    if fd in Posted(b.s, write) && InUse(b.table, fd, write) {
      var f, actions := FireBoard(b, fd, write), Called(b.table, fd, write);
      FireTidy(b, fd, write);
      TidyRuns(f, actions, fd, write);
      TameStays(b, fd, write, Script(f, actions).board);
    }
  }

  lemma FireTidy(b: Board, fd: nat, write: bool)
    requires fd in Posted(b.s, write) && InUse(b.table, fd, write) && Tame(b.table, b.s)
    ensures var f := FireBoard(b, fd, write);
            && f.table != [] && !InUse(f.table, fd, write)
            && Tidy(f.table, Called(b.table, fd, write), fd, write)
  {
    FireUses(b, fd, write);
  }

  lemma FireUses(b: Board, fd: nat, write: bool)
    requires InUse(b.table, fd, write)
    ensures var f := FireBoard(b, fd, write);
            && |f.table| == |b.table|
            && forall g: nat, v: bool :: InUse(f.table, g, v) <==> InUse(b.table, g, v) && !(g == fd && v == write)
  {
    SlotsApart(fd, write);
  }

  lemma TameStays(b: Board, fd: nat, write: bool, c: Board)
    requires b.table != [] && Tame(b.table, b.s) && fd in Posted(b.s, write) && InUse(b.table, fd, write)
    requires Script(FireBoard(b, fd, write), Called(b.table, fd, write)) == Ran(c)
    requires Steady(b, c) && fd !in Posted(c.s, write)
    ensures Tame(c.table, c.s)
  {
    hide Script, AllApart, InUse, FireBoard;
    var p := Called(b.table, fd, write);
    FireUses(b, fd, write);
    UsedOrArmed(FireBoard(b, fd, write), p);
    forall f: nat, w: bool | f in Posted(c.s, w) && InUse(c.table, f, w)
      ensures Tidy(c.table, Called(c.table, f, w), f, w)
    {
      TamePair(b.table, b.s, f, w, fd, write);
      TidyStays(b.table, c.table, p, Called(b.table, f, w), f, w);
    }
    TameApart(b, c);
    assert AllTidy(c.table, c.s);
  }

  lemma TamePair(table: seq<AioInfo>, s: Sets, f: nat, w: bool, g: nat, v: bool)
    requires Tame(table, s) && f in Posted(s, w) && InUse(table, f, w) && g in Posted(s, v) && InUse(table, g, v)
    ensures Tidy(table, Called(table, f, w), f, w)
    ensures !(f == g && w == v) ==> Apart(Called(table, f, w), Called(table, g, v))
  {
    hide Tidy, Apart, InUse;
  }

  lemma TidyStays(table: seq<AioInfo>, t: seq<AioInfo>, p: seq<Action>, q: seq<Action>, fd: nat, write: bool)
    requires Tidy(table, q, fd, write) && Apart(q, p) && |table| <= |t|
    requires forall f: nat, w: bool :: InUse(t, f, w) ==> InUse(table, f, w) || exists a :: a in p && ArmsSlot(a, f, w)
    ensures Tidy(t, q, fd, write)
  {
    hide InUse;
  }

  lemma TameApart(b: Board, c: Board)
    requires Tame(b.table, b.s) && Steady(b, c)
    ensures AllApart(c.table, c.s)
  {
    hide Tidy, Apart, InUse;
  }

  /** No callback of a tame board halts the program, in the whole pass. */
  lemma {:induction false} TamePass(b: Board, fd: nat)
    requires Good(b) && Tame(b.table, b.s)
    ensures b.table != [] && DispatchFrom(b, fd).Ran?
    decreases b.s.readPosted, b.s.writePosted, b.maxFd - fd
  {
    hide Good, Later, Accounted, Steady, DispatchSlot, Tame;
    GoodTable(b);
    if fd <= b.maxFd {
      TameSlot(b, fd, false);
      SlotFollows(b, fd, false);
      var c := DispatchSlot(b, fd, false).board;
      TameSlot(c, fd, true);
      SlotFollows(c, fd, true);
      TamePass(DispatchSlot(c, fd, true).board, fd + 1);
    }
  }

  // ---------------------------------------------------------------- what callbacks arm

  /** The slot waits for select with this callback. */
  ghost predicate Holds(b: Board, g: nat, v: bool, proc: Proc) {
    InUse(b.table, g, v) && b.table[Index(g, v)].fd == g && b.table[Index(g, v)].proc == proc && g in Waiting(b.s, v)
  }

  /** A waiting operation that is not retired goes on waiting. */
  lemma StaysWaiting(b: Board, c: Board, g: nat, v: bool, proc: Proc)
    requires Good(b) && Follows(b, c) && Holds(b, g, v, proc)
    requires !Retired(c.called, c.closed, b.table[Index(g, v)].ticket)
    ensures Holds(c, g, v, proc)
  {
    hide Ticketed, Accounted, Counted;
    assert c.table[Index(g, v)] == b.table[Index(g, v)];
    assert g !in Posted(c.s, v);
  }

  lemma InUseNotRetired(b: Board, g: nat, v: bool)
    requires Good(b) && InUse(b.table, g, v)
    ensures !Retired(b.called, b.closed, b.table[Index(g, v)].ticket)
    ensures g in Waiting(b.s, v) ==> b.table[Index(g, v)].ticket !in Due(b.table, b.s)
  {
    hide Counted, Due;
    if g in Waiting(b.s, v) {
      OtherTicket(b, g, v);
    }
  }

  /** Nothing has been closed. */
  predicate SameClosed(b: Board, c: Board) {
    c.closed == b.closed && c.lostRd == b.lostRd && c.lostWr == b.lostWr
  }

  predicate NoClosing(actions: seq<Action>) {
    forall a :: a in actions ==> a.ArmFor?
  }

  /** What a callback arms waits when it returns. */
  lemma {:induction false} ScriptArms(b: Board, actions: seq<Action>, g: nat, v: bool, proc: Proc)
    requires Good(b) && b.table != [] && NoClosing(actions) && Script(b, actions).Ran?
    ensures var c := Script(b, actions).board;
            && SameClosed(b, c)
            && (forall w: bool :: Posted(c.s, w) == Posted(b.s, w))
            && (Holds(b, g, v, proc) || ArmFor(g, v, proc) in actions ==> Holds(c, g, v, proc))
    decreases |actions|
  {
    hide Good, Later, Accounted, Steady, Act, Holds, Posted;
    if actions != [] {
      ActFollows(b, actions[0]);
      var c := Act(b, actions[0]).board;
      ActArms(b, actions[0]);
      if Holds(b, g, v, proc) {
        ActKeepsWaiting(b, actions[0], g, v, proc);
      }
      ScriptArms(c, actions[1..], g, v, proc);
    }
  }

  lemma ArmHolds(b: Board, fd: nat, write: bool, proc: Proc)
    requires b.table != []
    ensures Holds(ArmBoard(b, fd, write, proc), fd, write, proc)
  {
  }

  lemma ActArms(b: Board, a: Action)
    requires b.table != [] && a.ArmFor? && Act(b, a).Ran?
    ensures SameClosed(b, Act(b, a).board) && Holds(Act(b, a).board, a.fd, a.write, a.proc)
    ensures forall w: bool :: Posted(Act(b, a).board.s, w) == Posted(b.s, w)
  {
  }

  lemma ActKeepsWaiting(b: Board, a: Action, g: nat, v: bool, proc: Proc)
    requires Good(b) && b.table != [] && a.ArmFor? && Act(b, a).Ran? && Holds(b, g, v, proc)
    ensures Holds(Act(b, a).board, g, v, proc)
  {
    hide Good, Later, Accounted, Steady, Act;
    ActFollows(b, a);
    ActArms(b, a);
    InUseNotRetired(b, g, v);
    StaysWaiting(b, Act(b, a).board, g, v, proc);
  }

  /** No posted callback closes anything. */
  ghost predicate Placid(table: seq<AioInfo>, s: Sets) {
    forall f: nat, w: bool :: f in Posted(s, w) && InUse(table, f, w) ==> NoClosing(Called(table, f, w))
  }

  /** A posted callback will arm the slot with this callback. */
  ghost predicate WillArm(table: seq<AioInfo>, s: Sets, g: nat, v: bool, proc: Proc) {
    exists f: nat, w: bool :: f in Posted(s, w) && InUse(table, f, w) && ArmFor(g, v, proc) in Called(table, f, w)
  }

  /** The operation waits, or a callback that is posted will make it. */
  ghost predicate Pending(b: Board, g: nat, v: bool, proc: Proc) {
    Holds(b, g, v, proc) || WillArm(b.table, b.s, g, v, proc)
  }

  lemma FireKeepsWaiting(b: Board, fd: nat, write: bool, g: nat, v: bool, proc: Proc)
    requires Good(b) && fd in Posted(b.s, write) && InUse(b.table, fd, write) && Holds(b, g, v, proc)
    ensures Holds(FireBoard(b, fd, write), g, v, proc)
  {
    hide Ticketed, Counted;
    SlotsApart(fd, write);
  }

  lemma PlacidSlot(b: Board, fd: nat, write: bool, g: nat, v: bool, proc: Proc)
    requires Good(b) && b.table != [] && Placid(b.table, b.s) && DispatchSlot(b, fd, write).Ran?
    ensures var c := DispatchSlot(b, fd, write).board;
            SameClosed(b, c) && Placid(c.table, c.s) && (Pending(b, g, v, proc) ==> Pending(c, g, v, proc))
  {
    hide Good, Later, Accounted, Script, Holds, FireBoard;
    SlotFollows(b, fd, write);
    if fd in Posted(b.s, write) && InUse(b.table, fd, write) {
      var f, actions := FireBoard(b, fd, write), Called(b.table, fd, write);
      FireKeeps(b, fd, write);
      FireUses(b, fd, write);
      FireCloses(b, fd, write);
      ScriptArms(f, actions, g, v, proc);
      if Holds(b, g, v, proc) {
        FireKeepsWaiting(b, fd, write, g, v, proc);
      } else if WillArm(b.table, b.s, g, v, proc) && ArmFor(g, v, proc) !in actions {
        WillArmStays(b, fd, write, Script(f, actions).board, g, v, proc);
      }
    }
  }

  lemma FireCloses(b: Board, fd: nat, write: bool)
    requires InUse(b.table, fd, write)
    ensures SameClosed(b, FireBoard(b, fd, write)) && FireBoard(b, fd, write).s == Unpost(b.s, fd, write)
    ensures FireBoard(b, fd, write).table != []
  {
  }

  lemma WillArmStays(b: Board, fd: nat, write: bool, c: Board, g: nat, v: bool, proc: Proc)
    requires InUse(b.table, fd, write) && ArmFor(g, v, proc) !in Called(b.table, fd, write)
    requires WillArm(b.table, b.s, g, v, proc)
    requires Steady(b, c) && forall w: bool :: Posted(c.s, w) == Posted(Unpost(b.s, fd, write), w)
    ensures WillArm(c.table, c.s, g, v, proc)
  {
    hide InUse;
    var f: nat, w: bool :| f in Posted(b.s, w) && InUse(b.table, f, w) && ArmFor(g, v, proc) in Called(b.table, f, w);
    assert !(f == fd && w == write);
    assert f in Posted(c.s, w);
  }

  /** What is pending in `b` is pending in `c`. */
  ghost predicate KeepsPending(b: Board, c: Board) {
    forall g: nat, v: bool, p: Proc :: Pending(b, g, v, p) ==> Pending(c, g, v, p)
  }

  /** What posted callbacks arm waits when the pass is over, and so does what waited before. */
  lemma {:induction false} PassArms(b: Board, fd: nat)
    requires Good(b) && b.table != [] && Ahead(b, fd) && Placid(b.table, b.s) && DispatchFrom(b, fd).Ran?
    ensures var c := DispatchFrom(b, fd).board;
            SameClosed(b, c) && forall g, v, p :: Pending(b, g, v, p) ==> Holds(c, g, v, p)
    decreases b.s.readPosted, b.s.writePosted, b.maxFd - fd
  {
    hide Good, Later, Accounted, Steady, DispatchSlot, Placid, Ahead, Pending, Holds;
    if fd > b.maxFd {
      NothingAhead(b, fd);
      NothingPending(b);
    } else {
      var c := DispatchSlot(b, fd, false).board;
      SlotArms(b, fd, false);
      SlotFollows(b, fd, false);
      var d := DispatchSlot(c, fd, true).board;
      SlotArms(c, fd, true);
      SlotFollows(c, fd, true);
      AheadNext(b, d, fd);
      PassArms(d, fd + 1);
    }
  }

  lemma SlotArms(b: Board, fd: nat, write: bool)
    requires Good(b) && b.table != [] && Placid(b.table, b.s) && DispatchSlot(b, fd, write).Ran?
    ensures var c := DispatchSlot(b, fd, write).board;
            SameClosed(b, c) && Placid(c.table, c.s) && KeepsPending(b, c)
  {
    hide Good, DispatchSlot, Placid, Pending;
    PlacidSlot(b, fd, write, 0, false, Proc([]));
    forall g: nat, v: bool, p: Proc
      ensures Pending(b, g, v, p) ==> Pending(DispatchSlot(b, fd, write).board, g, v, p)
    {
      PlacidSlot(b, fd, write, g, v, p);
    }
  }

  // ---------------------------------------------------------------- callbacks that close what is posted

  /** The first operation to be dispatched is the read of `a`, and its callback closes `z`, whose read is posted too. */
  ghost predicate FirstCloses(b: Board, a: nat, z: nat) {
    && a in b.s.readPosted && z in b.s.readPosted && z != a && Ahead(b, a)
    && InUse(b.table, a, false) && CloseFd(z) in Called(b.table, a, false)
  }

  /** A posted read that a callback closes is lost. */
  lemma {:induction false} ScriptLoses(b: Board, actions: seq<Action>, z: nat)
    requires b.table != [] && Script(b, actions).Ran? && z in b.s.readPosted && CloseFd(z) in actions
    ensures Script(b, actions).board.lostRd > b.lostRd
    decreases |actions|
  {
    hide GrownTo, Cleared;
    var c := Act(b, actions[0]).board;
    LostGrows(c, actions[1..]);
    if actions[0] != CloseFd(z) {
      ScriptLoses(c, actions[1..], z);
    }
  }

  lemma {:induction false} LostGrows(b: Board, actions: seq<Action>)
    requires b.table != [] && Script(b, actions).Ran?
    ensures Script(b, actions).board.lostRd >= b.lostRd
    decreases |actions|
  {
    hide GrownTo, Cleared;
    if actions != [] {
      LostGrows(Act(b, actions[0]).board, actions[1..]);
    }
  }

  lemma {:induction false} PassLoses(b: Board, fd: nat, a: nat, z: nat)
    requires Good(b) && b.table != [] && FirstCloses(b, a, z) && fd <= a && DispatchFrom(b, fd).Ran?
    ensures DispatchFrom(b, fd).board.lostRd > b.lostRd
    decreases a - fd
  {
    hide Good, Later, Accounted, Steady, Script, FireBoard;
    PostedBelow(b, a);
    if fd < a {
      assert DispatchPair(b, fd) == Ran(b);
      PassLoses(b, fd + 1, a, z);
    } else {
      var f, actions := FireBoard(b, a, false), Called(b.table, a, false);
      FireKeeps(b, a, false);
      FireCloses(b, a, false);
      ScriptLoses(f, actions, z);
      SlotFollows(b, a, false);
      var c := DispatchSlot(b, a, false).board;
      SlotFollows(c, a, true);
      var d := DispatchSlot(c, a, true).board;
      AheadNext(b, d, a);
      PassFollows(d, a + 1);
      LostSoFar(b, c, d, DispatchFrom(d, a + 1).board);
    }
  }

  lemma PostedBelow(b: Board, a: nat)
    requires Good(b) && a in b.s.readPosted
    ensures a <= b.maxFd
  {
    hide Ticketed, Counted;
    assert a in Posted(b.s, false);
  }

  lemma LostSoFar(b: Board, c: Board, d: Board, e: Board)
    requires c.lostRd > b.lostRd && Later(c, d) && Later(d, e)
    ensures e.lostRd > b.lostRd
  {
    hide Survives;
  }

  // ---------------------------------------------------------------- when a pass without closings halts the program

  predicate ArmedAmong(actions: seq<Action>, g: nat, v: bool) {
    exists j :: 0 <= j < |actions| && ArmsSlot(actions[j], g, v)
  }

  /** A posted callback that has its turn before slot `k` arms the slot (g, v). */
  ghost predicate ArmedEarlier(table: seq<AioInfo>, s: Sets, k: nat, g: nat, v: bool) {
    exists f: nat, w: bool ::
      f in Posted(s, w) && InUse(table, f, w) && Index(f, w) < k && ArmedAmong(Called(table, f, w), g, v)
  }

  /** When slot `k` has its turn, the slot (g, v) waits, is posted and still to come, or has been armed in this pass. */
  ghost predicate Occupied(table: seq<AioInfo>, s: Sets, k: nat, g: nat, v: bool) {
    g in Waiting(s, v) || (g in Posted(s, v) && Index(g, v) > k) || ArmedEarlier(table, s, k, g, v)
  }

  /** The callback's action `i` arms a slot that is occupied, or that the callback has armed before. */
  ghost predicate Conflict(table: seq<AioInfo>, s: Sets, f: nat, w: bool, i: nat)
    requires InUse(table, f, w)
  {
    var actions := Called(table, f, w);
    && i < |actions| && actions[i].ArmFor?
    && var a := actions[i];
       Occupied(table, s, Index(f, w), a.fd, a.write) || ArmedAmong(actions[..i], a.fd, a.write)
  }

  ghost predicate Conflicts(table: seq<AioInfo>, s: Sets, f: nat, w: bool) {
    f in Posted(s, w) && InUse(table, f, w) && exists i: nat :: Conflict(table, s, f, w, i)
  }

  /** No posted operation has a slot below `k`. */
  ghost predicate FromSlot(s: Sets, k: nat) {
    forall f: nat, w: bool :: f in Posted(s, w) ==> Index(f, w) >= k
  }

  lemma BusyUnclosed(table: seq<AioInfo>, actions: seq<Action>, g: nat, v: bool)
    requires NoClosing(actions)
    ensures Busy(table, actions, g, v) <==> InUse(table, g, v) || ArmedAmong(actions, g, v)
  {
    forall j | 0 <= j < |actions|
      ensures CloseFd(g) !in actions[j..]
    {
      assert forall x :: x in actions[j..] ==> x in actions;
    }
  }

  /** What is in use waits or is posted. */
  lemma UsedMeans(b: Board, g: nat, v: bool)
    requires Good(b)
    ensures InUse(b.table, g, v) <==> g in Waiting(b.s, v) || g in Posted(b.s, v)
    ensures g in Waiting(b.s, v) ==> g !in Posted(b.s, v)
  {
    hide Ticketed, Counted;
  }

  /** The first callback of a pass halts the program, exactly if it conflicts. */
  lemma FirstHalts(b: Board, fd: nat, write: bool)
    requires Good(b) && fd in Posted(b.s, write) && InUse(b.table, fd, write)
    requires NoClosing(Called(b.table, fd, write)) && FromSlot(b.s, Index(fd, write))
    ensures var f := FireBoard(b, fd, write);
            f.table != [] && (Script(f, Called(b.table, fd, write)).Halted? <==> Conflicts(b.table, b.s, fd, write))
  {
    hide Good, Script, Clashes, Conflict, InUse, FireBoard;
    FireCloses(b, fd, write);
    FireUses(b, fd, write);
    var f, actions := FireBoard(b, fd, write), Called(b.table, fd, write);
    ScriptHalts(f, actions);
    forall i: nat | i < |actions|
      ensures Clashes(f.table, actions, i) <==> Conflict(b.table, b.s, fd, write, i)
    {
      FirstClash(b, fd, write, i);
    }
    assert forall i: nat :: Conflict(b.table, b.s, fd, write, i) ==> i < |actions| by {
      ConflictWithin(b.table, b.s, fd, write);
    }
  }

  lemma ConflictWithin(table: seq<AioInfo>, s: Sets, f: nat, w: bool)
    requires InUse(table, f, w)
    ensures forall i: nat :: Conflict(table, s, f, w, i) ==> i < |Called(table, f, w)|
  {
    hide Occupied, ArmedAmong;
  }

  lemma FirstClash(b: Board, fd: nat, write: bool, i: nat)
    requires Good(b) && fd in Posted(b.s, write) && InUse(b.table, fd, write) && i < |Called(b.table, fd, write)|
    requires NoClosing(Called(b.table, fd, write)) && FromSlot(b.s, Index(fd, write))
    ensures FireBoard(b, fd, write).table != []
    ensures Clashes(FireBoard(b, fd, write).table, Called(b.table, fd, write), i)
            <==> Conflict(b.table, b.s, fd, write, i)
  {
    hide Good, Busy, InUse, FireBoard, ArmedAmong;
    FireCloses(b, fd, write);
    FireUses(b, fd, write);
    var f, actions := FireBoard(b, fd, write), Called(b.table, fd, write);
    var a := actions[i];
    assert NoClosing(actions[..i]) && a.ArmFor?;
    BusyUnclosed(f.table, actions[..i], a.fd, a.write);
    UsedMeans(b, a.fd, a.write);
    SlotsApart(fd, write);
    assert !ArmedEarlier(b.table, b.s, Index(fd, write), a.fd, a.write);
  }

  /** When the first callback has run, the other slots are occupied as they were to be. */
  lemma OccupiedStays(b: Board, fd: nat, write: bool, c: Board, k: nat, g: nat, v: bool)
    requires Good(b) && Good(c) && fd in Posted(b.s, write) && InUse(b.table, fd, write)
    requires NoClosing(Called(b.table, fd, write)) && FireBoard(b, fd, write).table != []
    requires Script(FireBoard(b, fd, write), Called(b.table, fd, write)) == Ran(c)
    requires Steady(b, c) && (forall w: bool :: Posted(c.s, w) == Posted(Unpost(b.s, fd, write), w))
    requires ArmedAmong(Called(b.table, fd, write), g, v) ==> g in Waiting(c.s, v)
    requires k > Index(fd, write)
    ensures Occupied(c.table, c.s, k, g, v) <==> Occupied(b.table, b.s, k, g, v)
  {
    hide Good, Script, Busy, InUse, FireBoard, ArmedAmong;
    var p := Called(b.table, fd, write);
    FireUses(b, fd, write);
    ScriptUses(FireBoard(b, fd, write), p);
    BusyUnclosed(FireBoard(b, fd, write).table, p, g, v);
    UsedMeans(b, g, v);
    UsedMeans(c, g, v);
    SlotsApart(fd, write);
    EarlierStays(b, fd, write, c, k, g, v);
  }

  lemma EarlierStays(b: Board, fd: nat, write: bool, c: Board, k: nat, g: nat, v: bool)
    requires fd in Posted(b.s, write) && InUse(b.table, fd, write) && k > Index(fd, write)
    requires Steady(b, c) && (forall w: bool :: Posted(c.s, w) == Posted(Unpost(b.s, fd, write), w))
    ensures ArmedEarlier(b.table, b.s, k, g, v)
            <==> ArmedEarlier(c.table, c.s, k, g, v) || ArmedAmong(Called(b.table, fd, write), g, v)
  {
    hide InUse, ArmedAmong;
    assert forall f: nat, w: bool :: f in Posted(c.s, w) <==> f in Posted(b.s, w) && !(f == fd && w == write);
  }

  /** The callback of (fd, write), the first of a pass, has run from `b` to `c` without closing anything. */
  ghost predicate FirstRan(b: Board, fd: nat, write: bool, c: Board) {
    && fd in Posted(b.s, write) && InUse(b.table, fd, write) && FireBoard(b, fd, write).table != []
    && NoClosing(Called(b.table, fd, write)) && FromSlot(b.s, Index(fd, write))
    && Script(FireBoard(b, fd, write), Called(b.table, fd, write)) == Ran(c)
    && Steady(b, c) && forall w: bool :: Posted(c.s, w) == Posted(Unpost(b.s, fd, write), w)
  }

  lemma ArmedWaits(b: Board, actions: seq<Action>, g: nat, v: bool)
    requires Good(b) && b.table != [] && NoClosing(actions) && Script(b, actions).Ran? && ArmedAmong(actions, g, v)
    ensures g in Waiting(Script(b, actions).board.s, v)
  {
    hide Good, Script, NoClosing;
    var j :| 0 <= j < |actions| && ArmsSlot(actions[j], g, v);
    assert actions[j] == ArmFor(g, v, actions[j].proc);
    ScriptArms(b, actions, g, v, actions[j].proc);
  }

  lemma ConflictStays(b: Board, fd: nat, write: bool, c: Board, f: nat, w: bool, i: nat)
    requires Good(b) && Good(c) && FirstRan(b, fd, write, c) && f in Posted(c.s, w)
    ensures InUse(b.table, f, w) && InUse(c.table, f, w)
    ensures Conflict(c.table, c.s, f, w, i) <==> Conflict(b.table, b.s, f, w, i)
  {
    hide Good, Script, InUse, FireBoard, ArmedAmong, Occupied, NoClosing;
    SlotsApart(fd, write);
    assert f in Posted(b.s, w) && !(f == fd && w == write);
    assert Index(f, w) > Index(fd, write);
    var p := Called(b.table, fd, write);
    var actions := Called(b.table, f, w);
    if i < |actions| && actions[i].ArmFor? {
      var a := actions[i];
      FireKeeps(b, fd, write);
      if ArmedAmong(p, a.fd, a.write) {
        ArmedWaits(FireBoard(b, fd, write), p, a.fd, a.write);
      }
      OccupiedStays(b, fd, write, c, Index(f, w), a.fd, a.write);
    }
  }

  ghost predicate AnyConflict(table: seq<AioInfo>, s: Sets) {
    exists f: nat, w: bool :: Conflicts(table, s, f, w)
  }

  lemma ConflictsStay(b: Board, fd: nat, write: bool, c: Board)
    requires Good(b) && Good(c) && FirstRan(b, fd, write, c) && !Conflicts(b.table, b.s, fd, write)
    ensures AnyConflict(b.table, b.s) <==> AnyConflict(c.table, c.s)
    ensures FromSlot(c.s, Index(fd, write) + 1)
  {
    hide Good, Script, InUse, FireBoard, NoClosing, Conflict;
    SlotsApart(fd, write);
    assert forall f: nat, w: bool :: f in Posted(c.s, w) <==> f in Posted(b.s, w) && !(f == fd && w == write);
    forall f: nat, w: bool | !(f == fd && w == write)
      ensures Conflicts(b.table, b.s, f, w) <==> Conflicts(c.table, c.s, f, w)
    {
      if f in Posted(c.s, w) {
        forall i: nat
          ensures InUse(b.table, f, w) && InUse(c.table, f, w)
          ensures Conflict(c.table, c.s, f, w, i) <==> Conflict(b.table, b.s, f, w, i)
        {
          ConflictStays(b, fd, write, c, f, w, i);
        }
      }
    }
  }

  lemma SlotHalts(b: Board, fd: nat, write: bool)
    requires Good(b) && b.table != [] && Placid(b.table, b.s) && FromSlot(b.s, Index(fd, write))
    ensures var r := DispatchSlot(b, fd, write);
            && (r.Halted? ==> AnyConflict(b.table, b.s))
            && (r.Ran? ==>
                  && (AnyConflict(b.table, b.s) <==> AnyConflict(r.board.table, r.board.s))
                  && FromSlot(r.board.s, Index(fd, write) + 1))
  {
    hide Good, Later, Accounted, Script, FireBoard, Conflicts;
    SlotsApart(fd, write);
    SlotFollows(b, fd, write);
    if fd in Posted(b.s, write) {
      FireKeeps(b, fd, write);
      FireCloses(b, fd, write);
      FirstHalts(b, fd, write);
      var f, actions := FireBoard(b, fd, write), Called(b.table, fd, write);
      if Script(f, actions).Ran? {
        ScriptArms(f, actions, 0, false, Proc([]));
        ConflictsStay(b, fd, write, Script(f, actions).board);
      }
    }
  }

  /** A pass without closings halts the program if and only if one of its callbacks conflicts. */
  lemma {:induction false} PassHalts(b: Board, fd: nat)
    requires Good(b) && b.table != [] && Placid(b.table, b.s) && FromSlot(b.s, Index(fd, false))
    ensures DispatchFrom(b, fd).Halted? <==> AnyConflict(b.table, b.s)
    decreases b.s.readPosted, b.s.writePosted, b.maxFd - fd
  {
    hide Good, Later, Accounted, Steady, DispatchSlot, Placid, FromSlot, AnyConflict;
    if fd > b.maxFd {
      NoConflict(b, fd);
    } else {
      SlotHalts(b, fd, false);
      var r := DispatchSlot(b, fd, false);
      if r.Ran? {
        SlotArms(b, fd, false);
        SlotFollows(b, fd, false);
        SlotHalts(r.board, fd, true);
        var q := DispatchSlot(r.board, fd, true);
        if q.Ran? {
          SlotArms(r.board, fd, true);
          SlotFollows(r.board, fd, true);
          PassHalts(q.board, fd + 1);
        }
      }
    }
  }

  lemma NoConflict(b: Board, fd: nat)
    requires Good(b) && FromSlot(b.s, Index(fd, false)) && fd > b.maxFd
    ensures !AnyConflict(b.table, b.s)
  {
    hide Ticketed, Counted, Conflict;
  }

  // ---------------------------------------------------------------- calls of OS_DoIo

  /** Calls that do not halt, what is armed in them, and what is lost. */
  lemma DoIoRuns(b: Board, readable: set<nat>, writable: set<nat>)
    requires Good(b)
    ensures b.table != []
    ensures var r, c := DoIoBoard(b, readable, writable), ReadyBoard(b, readable, writable);
            && (Tame(c.table, c.s) ==> r.Ran?)
            && (Placid(c.table, c.s) ==> (r.Halted? <==> AnyConflict(c.table, c.s)))
            && (r.Ran? ==> forall a, z :: FirstCloses(c, a, z) ==> r.board.lostRd > b.lostRd)
            && (r.Ran? && Placid(c.table, c.s) ==>
                  && SameClosed(b, r.board)
                  && forall g, v, p :: Pending(c, g, v, p) ==> Holds(r.board, g, v, p))
            && (b.numRd + b.numWr > 0 && b.s.readPosted == {} && b.s.writePosted == {} ==> r == Ran(b))
  {
    hide Good, DispatchFrom, Tame, Placid, AnyConflict, Pending, Holds, FirstCloses;
    GoodTable(b);
    var c := ReadyBoard(b, readable, writable);
    ReadyKeeps(b, readable, writable);
    NoneLost(c);
    NoneLost(b);
    if c.s.readPosted == {} && c.s.writePosted == {} {
      NothingToDispatch(c, 0);
      NothingPending(c);
    } else {
      PassRuns(c);
    }
  }

  lemma {:induction false} NothingToDispatch(b: Board, fd: nat)
    requires b.table != [] && b.s.readPosted == {} && b.s.writePosted == {}
    ensures DispatchFrom(b, fd) == Ran(b)
    decreases b.maxFd - fd
  {
    if fd <= b.maxFd {
      NothingToDispatch(b, fd + 1);
    }
  }

  lemma NothingPending(b: Board)
    requires b.s.readPosted == {} && b.s.writePosted == {}
    ensures forall g, v, p :: Pending(b, g, v, p) ==> Holds(b, g, v, p)
    ensures !AnyConflict(b.table, b.s) && forall a, z :: !FirstCloses(b, a, z)
  {
  }

  lemma PassRuns(c: Board)
    requires Good(c) && c.table != []
    ensures var r := DispatchFrom(c, 0);
            && (Tame(c.table, c.s) ==> r.Ran?)
            && (Placid(c.table, c.s) ==> (r.Halted? <==> AnyConflict(c.table, c.s)))
            && (r.Ran? ==> forall a, z :: FirstCloses(c, a, z) ==> r.board.lostRd > c.lostRd)
            && (r.Ran? && Placid(c.table, c.s) ==>
                  && SameClosed(c, r.board)
                  && forall g, v, p :: Pending(c, g, v, p) ==> Holds(r.board, g, v, p))
  {
    hide Good, DispatchFrom, Tame, Placid, AnyConflict, Pending, Holds, FirstCloses;
    if Placid(c.table, c.s) {
      PassHalts(c, 0);
    }
    if Tame(c.table, c.s) {
      TamePass(c, 0);
    }
    var r := DispatchFrom(c, 0);
    if r.Ran? {
      forall a, z | FirstCloses(c, a, z)
        ensures r.board.lostRd > c.lostRd
      {
        PassLoses(c, 0, a, z);
      }
      if Placid(c.table, c.s) {
        PassArms(c, 0);
      }
    }
  }
}
