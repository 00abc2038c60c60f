/** The helper itself: its fields and its loops, run by one thread among the others. */
module ReadWriteHelper {
  import opened Options
  import opened ReadWriteSpec
  import opened ReadWriteProof
  import opened ReadWriteRuns
  import opened ReadWriteWorld
  import opened ReadWriteEnds
  import opened ReadWriteOrder

  /** What a thread has done with the queue `q` it found: a first part of `q` is gone, each of it finished or timed
      out, and exactly the bytes of the finished ones have been added to the wire, in their order. */
  ghost predicate Served(q: seq<nat>, wire: seq<Byte>, ops: seq<Op>, rest: seq<nat>, wire': seq<Byte>, fin: seq<nat>) {
    && |rest| <= |q| && rest == q[|q| - |rest|..]
    && (forall i | 0 <= i < |fin| :: fin[i] < |ops| && fin[i] in q[..|q| - |rest|])
    && (forall i | 0 <= i < |q| - |rest| :: q[i] in fin || (q[i] < |ops| && ops[q[i]].timeoutFlag))
    && wire' == wire + Join(ops, fin)
  }

  lemma ServedAtStart(q: seq<nat>, wire: seq<Byte>, ops: seq<Op>)
    ensures Served(q, wire, ops, q, wire, [])
  {
  }

  lemma ServedUndisturbed(q: seq<nat>, wire: seq<Byte>, ops: seq<Op>, ops': seq<Op>,
                          rest: seq<nat>, wire': seq<Byte>, fin: seq<nat>)
    requires Served(q, wire, ops, rest, wire', fin) && SameTransfers(ops, ops')
    ensures Served(q, wire, ops', rest, wire', fin)
  {
    JoinSame(ops, ops', fin);
  }

  lemma ServedDrop(q: seq<nat>, wire: seq<Byte>, ops: seq<Op>, rest: seq<nat>, wire': seq<Byte>, fin: seq<nat>)
    requires Served(q, wire, ops, rest, wire', fin)
    requires rest != [] && rest[0] < |ops| && ops[rest[0]].timeoutFlag
    ensures Served(q, wire, ops, rest[1..], wire', fin)
  {
    PoppedFront(q, rest);
  }

  lemma PoppedFront(q: seq<nat>, rest: seq<nat>)
    requires rest != [] && |rest| <= |q| && rest == q[|q| - |rest|..]
    ensures rest[1..] == q[|q| - |rest[1..]|..]
    ensures q[..|q| - |rest[1..]|] == q[..|q| - |rest|] + [rest[0]]
  {
  }

  lemma ServedTransfer(q: seq<nat>, wire: seq<Byte>, ops: seq<Op>, ops': seq<Op>,
                       rest: seq<nat>, wire': seq<Byte>, fin: seq<nat>)
    requires Served(q, wire, ops, rest, wire', fin)
    requires rest != [] && rest[0] < |ops| == |ops'| && rest[0] !in fin
    requires forall o | 0 <= o < |ops| && o != rest[0] :: ops'[o] == ops[o]
    ensures Served(q, wire, ops', rest[1..], wire' + ops'[rest[0]].moved, fin + [rest[0]])
  {
    var o, fin' := rest[0], fin + [rest[0]];
    PoppedFront(q, rest);
    JoinAppend(ops, ops', fin, o);
    forall i | 0 <= i < |q| - |rest[1..]| ensures q[i] in fin' || (q[i] < |ops'| && ops'[q[i]].timeoutFlag) {
      if i == |q| - |rest| { assert q[i] == o && fin'[|fin|] == o; }
      if q[i] in fin { assert q[i] in fin'; }
    }
  }

  lemma DroppedSame(ops: seq<Op>, o: nat)
    requires o < |ops|
    ensures SameTransfers(ops, ops[o := ops[o].(stage := Dropped)])
  {
  }

  lemma ResultSame(a: seq<Op>, b: seq<Op>, o: nat)
    requires SameTransfers(a, b) && o < |b|
    ensures SameTransfers(a, b[o := b[o].(result := Success)]) && SameTransfers(a, b[o := b[o].(result := Fail)])
  {
  }

  lemma FullSame(a: seq<Op>, b: seq<Op>, fin: seq<nat>)
    requires SameTransfers(a, b) && AllFull(a, fin)
    ensures AllFull(b, fin)
  {
  }

  lemma FullElsewhere(a: seq<Op>, b: seq<Op>, fin: seq<nat>, o: nat)
    requires |a| == |b| && o !in fin && forall x | 0 <= x < |a| && x != o :: b[x] == a[x]
    ensures AllFull(a, fin) ==> AllFull(b, fin)
  {
  }

  lemma FullAppend(ops: seq<Op>, fin: seq<nat>, o: nat)
    requires AllFull(ops, fin) && o < |ops|
    ensures AllFull(ops, fin + [o]) <==> Full(ops[o])
  {
    assert (fin + [o])[|fin|] == o;
  }

  lemma NoneIsFull(ops: seq<Op>)
    ensures AllFull(ops, [])
  {
  }

  lemma FullPrefix(ops: seq<Op>, fin: seq<nat>)
    requires AllFull(ops, fin)
    ensures fin != [] ==> AllFull(ops, fin[..|fin| - 1])
  {
  }

  lemma LoopUndisturbed(q: seq<nat>, wire: seq<Byte>, s: State, u: State, fin: seq<nat>)
    requires Undisturbed(s, u) && Served(q, wire, s.ops, s.queue, s.wire, fin) && AllFull(s.ops, fin)
    ensures u.queue == s.queue && Served(q, wire, u.ops, u.queue, u.wire, fin) && AllFull(u.ops, fin)
    ensures fin != [] ==> AllFull(u.ops, fin[..|fin| - 1])
  {
    hide Served, AllFull, SameTransfers;
    ServedUndisturbed(q, wire, s.ops, u.ops, s.queue, s.wire, fin);
    FullSame(s.ops, u.ops, fin);
    FullPrefix(u.ops, fin);
  }

  /** What a call of DoOperate that is done has done. */
  ghost predicate OperateDone(origin: State, t: nat, given: seq<Turn>, a: nat, n: nat)
    requires Inv(origin)
  {
    && EndsWhenStopped(origin, t, given, a, n)
    && Tried(origin, t, given, a, n)
    && (Alone(given, a, n) ==> FlagTells(origin, t, given, a, n))
  }

  lemma OperateIsDone(origin: State, t: nat, given: seq<Turn>, a: nat, n: nat)
    requires Reachable(origin) && Inv(origin) && a <= n && PcOf(Driven(origin, t, given, a), t).Entering?
    requires var pc := PcOf(Driven(origin, t, given, n), t); pc == Idle || pc.Arming?
    ensures OperateDone(origin, t, given, a, n)
  {
    hide Inv, Reachable, Driven, EndsWhenStopped, Tried, FlagTells, Alone;
    CallEndsWhenStopped(origin, t, given, a, n);
    CallTries(origin, t, given, a, n);
    if Alone(given, a, n) { CallSetsFlag(origin, t, given, a, n); }
  }

  // ----- a timer callback under way is left alone, too

  ghost predicate SameExpiry(a: seq<Op>, b: seq<Op>) {
    |a| <= |b| && forall o | 0 <= o < |a| :: b[o].expiry == a[o].expiry
  }

  predicate Expires(a: Action, o: nat) {
    a == Ring(o) || a == ExpiryName(o) || a == ExpiryResume(o)
  }

  lemma OthersLeaveExpiry(s: State, a: Action, o: nat)
    requires Inv(s) && Enabled(s, a) && !Expires(a, o) && o < |s.ops|
    ensures o < |Next(s, a).ops| && Next(s, a).ops[o].expiry == s.ops[o].expiry
  {
    hide Inv, NextStep;
    if a.Step? { StepLeavesExpiry(s, a.thread, a.io); }
  }

  lemma StepLeavesExpiry(s: State, x: nat, io: Io)
    requires Numbered(s) && Enabled(s, Step(x, io))
    ensures SameExpiry(s.ops, NextStep(s, x, io).ops)
  {
    hide NextIo, NextEnd, NextPublish, TakeAll, ResumeIo;
    var pc := PcOf(s, x);
    var hand := Hand(pc);
    assert hand != [] ==> hand[0] < |s.ops| && hand[|hand| - 1] < |s.ops|;
    match pc
    case Looping(cont, fin) => IoLeavesExpiry(s, x, cont, fin, io);
    case Publishing(cont, fin) => PublishLeavesExpiry(s, x, cont, fin);
    case Ending(cont) => TakeLeavesExpiry(s, x, cont);
    case EndLoop(cont, rest) => EndLeavesExpiry(s, x, cont, rest);
    case Resuming(cont, fin) => ResumeLeavesExpiry(s, x, fin[0], Calling(cont, fin[1..]));
    case EndResuming(cont, rest) => ResumeLeavesExpiry(s, x, rest[0], EndLoop(cont, rest[1..]));
    case _ =>
  }

  lemma IoLeavesExpiry(s: State, x: nat, cont: Cont, fin: seq<nat>, io: Io)
    requires Numbered(s) && (s.queue != [] ==> IoAllowed(s, s.queue[0], io))
    ensures SameExpiry(s.ops, NextIo(s, x, cont, fin, io).ops)
  {
  }

  lemma PublishLeavesExpiry(s: State, x: nat, cont: Cont, fin: seq<nat>)
    requires fin != [] && fin[|fin| - 1] < |s.ops|
    ensures SameExpiry(s.ops, NextPublish(s, x, cont, fin).ops)
  {
  }

  lemma TakeLeavesExpiry(s: State, x: nat, cont: Cont)
    ensures SameExpiry(s.ops, TakeAll(s, x, cont).ops)
  {
  }

  lemma EndLeavesExpiry(s: State, x: nat, cont: Cont, rest: seq<nat>)
    requires rest != [] ==> rest[0] < |s.ops|
    ensures SameExpiry(s.ops, NextEnd(s, x, cont, rest).ops)
  {
  }

  lemma ResumeLeavesExpiry(s: State, x: nat, o: nat, pc: Pc)
    requires o < |s.ops|
    ensures SameExpiry(s.ops, ResumeIo(s, x, o, pc).ops)
  {
  }

  lemma ArmedHasNotExpired(s: State, o: nat)
    requires Inv(s) && o < |s.ops| && s.ops[o].alarm == Armed
    ensures s.ops[o].expiry == NotExpired
  {
    assert OpOk(s.ops[o]);
  }

  /** What others try during a callback for operation `o` happens if it is possible at that moment. */
  ghost function Around(s: State, o: nat, actions: seq<Action>): (u: State)
    requires Inv(s)
    ensures Inv(u)
    decreases |actions|
  {
    hide Inv;
    if actions == [] then s
    else
      var u, a := Around(s, o, actions[..|actions| - 1]), actions[|actions| - 1];
      if Expires(a, o) then u else Took(u, a)
  }

  /** The action, if it is possible. */
  ghost function Took(s: State, a: Action): (u: State)
    requires Inv(s)
    ensures Inv(u)
  {
    hide Inv;
    if Enabled(s, a) then
      NextKeepsInv(s, a);
      Next(s, a)
    else s
  }

  lemma AroundNone(s: State, o: nat)
    requires Inv(s)
    ensures Around(s, o, []) == s
  {
  }

  lemma AroundOne(s: State, o: nat, actions: seq<Action>, i: nat)
    requires Inv(s) && i < |actions|
    ensures var u, a := Around(s, o, actions[..i]), actions[i];
            Around(s, o, actions[..i + 1]) == if !Expires(a, o) && Enabled(u, a) then Next(u, a) else u
  {
    hide Inv;
    assert actions[..i + 1][..i] == actions[..i];
  }

  /** A whole callback for operation `o`, with a turn of others before its second and its third section. */
  ghost function Expired(s: State, o: nat, given: seq<Turn>): (u: State)
    requires Inv(s) && o < |s.ops|
    ensures Inv(u)
  {
    hide Inv, Took, Around;
    var rung := Took(s, Ring(o));
    if s.ops[o].finishFlag then rung
    else
      var named := Took(Around(rung, o, TurnAt(given, 0).others), ExpiryName(o));
      Took(Around(named, o, TurnAt(given, 1).others), ExpiryResume(o))
  }

  // ----- one lemma for each section of a thread: where it leads

  lemma AfterEntering(s: State, t: nat, io: Io, cont: Cont)
    requires Inv(s) && PcOf(s, t) == Entering(cont)
    ensures Stepped(s, t, io, At(s, t, Locking(cont)).(operateable := false))
  {
    hide Inv, Numbered;
  }

  lemma AfterLocking(s: State, t: nat, io: Io, cont: Cont)
    requires Inv(s) && PcOf(s, t) == Locking(cont) && s.holder == None
    ensures Stepped(s, t, io, At(s, t, Looping(cont, [])).(holder := Some(t), queue := s.queue + s.ready, ready := []))
  {
    hide Inv, Numbered;
  }

  lemma AfterLoop(s: State, t: nat, io: Io, cont: Cont, fin: seq<nat>)
    requires Inv(s) && PcOf(s, t) == Looping(cont, fin) && s.queue == []
    ensures Stepped(s, t, io, At(s, t, Flagging(cont, fin, true)).(holder := None))
  {
    hide Inv, Numbered;
  }

  lemma FrontIsOperation(s: State)
    requires Inv(s) && s.queue != []
    ensures s.queue[0] < |s.ops|
  {
    hide Inv;
  }

  lemma AfterTimedOutFront(s: State, t: nat, io: Io, cont: Cont, fin: seq<nat>)
    requires Inv(s) && PcOf(s, t) == Looping(cont, fin) && s.queue != []
    requires s.queue[0] < |s.ops| && s.ops[s.queue[0]].timeoutFlag
    ensures Stepped(s, t, io, DropTimedOut(s, t, s.queue[0], Looping(cont, fin)).(queue := s.queue[1..]))
  {
    hide Inv, Numbered;
  }

  lemma AfterBlockedFront(s: State, t: nat, io: Io, cont: Cont, fin: seq<nat>)
    requires Inv(s) && PcOf(s, t) == Looping(cont, fin) && s.queue != []
    requires s.queue[0] < |s.ops| && !s.ops[s.queue[0]].timeoutFlag && (io.WouldBlock? || !IoAllowed(s, s.queue[0], io))
    ensures Stepped(s, t, io,
                    At(s, t, Flagging(cont, fin, false)).(holder := None, attempts := s.attempts + [s.queue[0]]))
  {
    hide Inv, Numbered;
  }

  lemma AfterTransfer(s: State, t: nat, io: Io, cont: Cont, fin: seq<nat>)
    requires Inv(s) && PcOf(s, t) == Looping(cont, fin) && s.queue != []
    requires IoAllowed(s, s.queue[0], io) && !s.ops[s.queue[0]].timeoutFlag && !io.WouldBlock?
    ensures Stepped(s, t, io, Transfer(s, t, cont, fin, if io.Bytes? then io.bytes else []))
  {
    hide Inv, Numbered;
  }

  lemma AfterPublishing(s: State, t: nat, io: Io, cont: Cont, fin: seq<nat>)
    requires Inv(s) && PcOf(s, t) == Publishing(cont, fin)
    ensures fin != [] && fin[|fin| - 1] < |s.ops|
    ensures Stepped(s, t, io, NextPublish(s, t, cont, fin))
  {
    hide Inv, Numbered, NextPublish;
    HandNumbered(s, t);
    assert Hand(PcOf(s, t)) == fin;
  }

  lemma AfterFlagging(s: State, t: nat, io: Io, cont: Cont, fin: seq<nat>, ready: bool)
    requires Inv(s) && PcOf(s, t) == Flagging(cont, fin, ready)
    ensures Stepped(s, t, io, At(s, t, Calling(cont, fin)).(operateable := s.operateable || ready))
  {
    hide Inv, Numbered;
  }

  lemma AfterCalling(s: State, t: nat, io: Io, cont: Cont, fin: seq<nat>)
    requires Inv(s) && PcOf(s, t) == Calling(cont, fin)
    ensures Stepped(s, t, io,
                    At(s, t, if fin != [] then Resuming(cont, fin) else if s.run then After(cont) else Ending(cont)))
  {
    hide Inv, Numbered;
  }

  lemma AfterResuming(s: State, t: nat, io: Io, cont: Cont, fin: seq<nat>)
    requires Inv(s) && PcOf(s, t) == Resuming(cont, fin)
    ensures fin != [] && fin[0] < |s.ops|
    ensures Stepped(s, t, io, ResumeIo(s, t, fin[0], Calling(cont, fin[1..])))
  {
    hide Inv, Numbered, ResumeIo;
    HandNumbered(s, t);
    assert Hand(PcOf(s, t)) == fin;
  }

  lemma AfterEnding(s: State, t: nat, io: Io, cont: Cont)
    requires Inv(s) && PcOf(s, t) == Ending(cont) && s.holder == None
    ensures Stepped(s, t, io, TakeAll(s, t, cont))
  {
    hide Inv, Numbered, TakeAll;
  }

  lemma AfterEndLoop(s: State, t: nat, io: Io, cont: Cont, rest: seq<nat>)
    requires Inv(s) && PcOf(s, t) == EndLoop(cont, rest)
    ensures rest != [] ==> rest[0] < |s.ops|
    ensures Stepped(s, t, io, NextEnd(s, t, cont, rest))
  {
    hide Inv, Numbered, NextEnd;
    HandNumbered(s, t);
    assert Hand(PcOf(s, t)) == rest;
  }

  lemma AfterEndPublishing(s: State, t: nat, io: Io, cont: Cont, rest: seq<nat>)
    requires Inv(s) && PcOf(s, t) == EndPublishing(cont, rest)
    ensures rest != [] && rest[0] < |s.ops|
    ensures Stepped(s, t, io, At(s, t, EndStopping(cont, rest)).(
                      ops := s.ops[rest[0] := s.ops[rest[0]].(result := Disconnected)]))
  {
    hide Inv, Numbered;
    HandNumbered(s, t);
    assert Hand(PcOf(s, t)) == rest;
  }

  lemma AfterEndStopping(s: State, t: nat, io: Io, cont: Cont, rest: seq<nat>)
    requires Inv(s) && PcOf(s, t) == EndStopping(cont, rest)
    ensures Stepped(s, t, io, At(s, t, EndResuming(cont, rest)))
  {
    hide Inv, Numbered;
  }

  lemma AfterEndResuming(s: State, t: nat, io: Io, cont: Cont, rest: seq<nat>)
    requires Inv(s) && PcOf(s, t) == EndResuming(cont, rest)
    ensures rest != [] && rest[0] < |s.ops|
    ensures Stepped(s, t, io, ResumeIo(s, t, rest[0], EndLoop(cont, rest[1..])))
  {
    hide Inv, Numbered, ResumeIo;
    HandNumbered(s, t);
    assert Hand(PcOf(s, t)) == rest;
  }

  lemma AfterChecking(s: State, t: nat, io: Io, o: nat)
    requires Inv(s) && PcOf(s, t) == Checking(o)
    ensures Stepped(s, t, io, At(s, t, if s.operateable then Entering(Arm(o)) else Arming(o)))
  {
    hide Inv, Numbered;
  }

  lemma AfterArming(s: State, t: nat, io: Io, o: nat)
    requires Inv(s) && PcOf(s, t) == Arming(o)
    ensures o < |s.ops| && Stepped(s, t, io, At(s, t, Idle).(ops := s.ops[o := s.ops[o].(alarm := Armed)]))
  {
    ArmingIsOperation(s, t);
    hide Inv, Numbered;
  }

  lemma ArmingIsOperation(s: State, t: nat)
    requires Inv(s) && PcOf(s, t).Arming?
    ensures PcOf(s, t).op < |s.ops|
  {
    hide Inv;
  }

  lemma MovedWithinNeed(s: State, o: nat)
    requires Inv(s) && o < |s.ops|
    ensures |s.ops[o].moved| <= s.ops[o].need
  {
    assert OpOk(s.ops[o]);
  }

  lemma HolderIsLooping(s: State, t: nat)
    requires Inv(s) && Locked(PcOf(s, t))
    ensures s.holder == Some(t)
  {
    LockParts(s);
  }

  lemma AfterRing(s: State, o: nat)
    requires Reachable(s) && o < |s.ops| && s.ops[o].alarm == Armed
    ensures s.ops[o].expiry == NotExpired && Reachable(NextRing(s, o)) && Inv(s) && NextRing(s, o) == Took(s, Ring(o))
  {
    hide Inv, Reachable, Numbered, NextRing;
    ReachableInv(s);
    ArmedHasNotExpired(s, o);
    ReachableNext(s, Ring(o));
  }

  lemma AfterExpiryName(s: State, o: nat)
    requires Reachable(s) && o < |s.ops| && s.ops[o].expiry == Marked
    ensures var u := s.(ops := s.ops[o := s.ops[o].(result := TimedOut, expiry := Named)]);
            Reachable(u) && Inv(s) && u == Took(s, ExpiryName(o))
  {
    hide Inv, Reachable, Numbered;
    ReachableInv(s);
    ReachableNext(s, ExpiryName(o));
  }

  lemma AfterExpiryResume(s: State, o: nat)
    requires Reachable(s) && o < |s.ops| && s.ops[o].expiry == Named
    ensures var u := s.(ops := s.ops[o := s.ops[o].(resumes := s.ops[o].resumes + 1, expiry := Resumed)]);
            Reachable(u) && Inv(s) && u == Took(s, ExpiryResume(o))
  {
    hide Inv, Reachable, Numbered;
    ReachableInv(s);
    ReachableNext(s, ExpiryResume(o));
  }

  class ChannelReadWriteHelper {
    var runFlag: bool
    var operateableFlag: bool
    var operateMutex: Option<nat>
    var readyQueue: seq<nat>
    var operateQueue: seq<nat>
    var ops: seq<Op>
    var threads: map<nat, Pc>
    var wire: seq<Byte>
    var performed: seq<nat>
    var attempts: seq<nat>
    /** What is still to happen around the helper. */
    var world: seq<Turn>

    // the call under way: where it started, what was to happen then, and how many turns it has taken
    ghost var origin: State
    ghost var given: seq<Turn>
    ghost var turns: nat

    function View(): State
      reads this
    {
      State(runFlag, operateableFlag, operateMutex, readyQueue, operateQueue, ops, threads, wire, performed, attempts)
    }

    ghost predicate Valid()
      reads this
    {
      Reachable(View()) && Inv(View())
    }

    /** Between two turns of the call: the helper is exactly where the turns have led it. */
    ghost predicate Following(t: nat)
      reads this
    {
      && Reachable(origin) && Inv(origin)
      && View() == Driven(origin, t, given, turns) && world == Later(given, turns)
    }

    /** Within a turn: the others have acted, and the thread's section is next. */
    ghost predicate Amid(t: nat, io: Io)
      reads this
    {
      && Reachable(origin) && Inv(origin)
      && View() == Offered(Driven(origin, t, given, turns), t, TurnAt(given, turns).others)
      && world == Later(given, turns + 1) && io == TurnAt(given, turns).io
    }

    constructor (world: seq<Turn>)
      ensures Valid() && View() == Init && this.world == world
    {
      runFlag, operateableFlag, operateMutex, readyQueue, operateQueue := false, false, None, [], [];
      ops, threads, wire, performed, attempts := [], map[], [], [], [];
      this.world := world;
      new;
      ReachableInit();
    }

    /** An action of somebody else. */
    method Act(a: Action)
      requires Numbered(View()) && Enabled(View(), a)
      modifies this
      ensures View() == Next(old(View()), a) && world == old(world)
      ensures origin == old(origin) && given == old(given) && turns == old(turns)
    {
      hide Numbered, Enabled, Next;
      var s := Next(View(), a);
      runFlag, operateableFlag, operateMutex := s.run, s.operateable, s.holder;
      readyQueue, operateQueue := s.ready, s.queue;
      ops, threads, wire, performed, attempts := s.ops, s.threads, s.wire, s.performed, s.attempts;
    }

    /** Begins a turn: lets others run; those of their actions that are not possible just then do not happen. */
    method Interleave(t: nat) returns (io: Io)
      requires Following(t)
      modifies this
      ensures Amid(t, io) && Inv(View())
      ensures origin == old(origin) && given == old(given) && turns == old(turns)
      ensures PcOf(View(), t) == old(PcOf(View(), t))
      ensures old(operateMutex) == Some(t) ==> Undisturbed(old(View()), View())
      ensures |world| == if old(world) == [] then 0 else |old(world)| - 1
    {
      hide Inv, Reachable, Next, Enabled, Driven, Offered, Undisturbed, Numbered, PcOf;
      ghost var s := View();
      LaterTurns(given, turns);
      var turn := if world == [] then Turn([], WouldBlock) else world[0];
      world := if world == [] then [] else world[1..];
      io := turn.io;
      OfferedNone(s, t);
      OfferedStaysAway(s, t, turn.others);
      for i := 0 to |turn.others|
        invariant View() == Offered(s, t, turn.others[..i]) && world == Later(given, turns + 1)
        invariant origin == old(origin) && given == old(given) && turns == old(turns)
      {
        var a := turn.others[i];
        OfferedOne(s, t, turn.others, i);
        if ByOther(a, t) && Enabled(View(), a) {
          Act(a);
        }
      }
      assert turn.others[..|turn.others|] == turn.others;
    }

    /** Waits for the operating mutex; gives up only when nothing more happens around the helper. */
    method AwaitMutex(t: nat) returns (free: bool, io: Io)
      requires Following(t) && (PcOf(View(), t).Locking? || PcOf(View(), t).Ending?)
      modifies this
      ensures origin == old(origin) && given == old(given) && turns >= old(turns)
      ensures PcOf(View(), t) == old(PcOf(View(), t)) && Inv(View())
      ensures if free then Amid(t, io) && operateMutex == None else Following(t) && Blocked(View(), t) && world == []
    {
      hide Inv, Reachable, Driven, Offered, Undisturbed, Enabled, Next, Numbered, TurnAt, Later;
      io := Interleave(t);
      while operateMutex != None && world != []
        invariant Amid(t, io) && Inv(View()) && PcOf(View(), t) == old(PcOf(View(), t))
        invariant origin == old(origin) && given == old(given) && turns >= old(turns)
        decreases |world|
      {
        TurnWaits(origin, t, given, turns, View());
        turns := turns + 1;
        io := Interleave(t);
      }
      free := operateMutex == None;
      if !free {
        TurnWaits(origin, t, given, turns, View());
        turns := turns + 1;
      }
    }

    /** Holding the mutex, serves the queued operations in order until one would block, moves less than it asked
        for, fails, or none is left. */
    method DoOperateImp(t: nat, ghost cont: Cont, ghost io0: Io) returns (finished: seq<nat>, ready: bool)
      requires Amid(t, io0) && Inv(View()) && PcOf(View(), t) == Locking(cont) && operateMutex == None
      modifies this
      ensures origin == old(origin) && given == old(given) && turns >= old(turns)
      ensures Following(t) && PcOf(View(), t) == Flagging(cont, finished, ready) && operateMutex == None
      ensures ready <==> operateQueue == [] && AllFull(ops, finished)
      ensures finished != [] ==> AllFull(ops, finished[..|finished| - 1])
      ensures Served(old(operateQueue + readyQueue), old(wire), ops, operateQueue, wire, finished)
    {
      hide Inv, Reachable, Driven, Offered, Stepped, Served, SameTransfers, AllFull, Undisturbed, Amid;
      ghost var q, wire0 := operateQueue + readyQueue, wire;
      Splice(t, cont, io0);
      NoneIsFull(ops);
      ServedAtStart(q, wire0, ops);
      finished := [];
      while true
        invariant Following(t) && PcOf(View(), t) == Looping(cont, finished)
        invariant origin == old(origin) && given == old(given) && turns >= old(turns)
        invariant Served(q, wire0, ops, operateQueue, wire, finished) && AllFull(ops, finished)
        decreases |operateQueue|
      {
        HolderIsLooping(View(), t);
        ghost var u := View();
        var io := Interleave(t);
        LoopUndisturbed(q, wire0, u, View(), finished);
        if operateQueue == [] {
          LeaveLoop(t, cont, io, finished);
          return finished, true;
        }
        var more;
        more, finished := OperateFront(t, cont, finished, io, q, wire0);
        if !more {
          return finished, false;
        }
      }
    }

    /** Takes the mutex and moves what is ready to the operating queue. */
    method Splice(t: nat, ghost cont: Cont, ghost io: Io)
      requires Amid(t, io) && Inv(View()) && PcOf(View(), t) == Locking(cont) && operateMutex == None
      modifies this
      ensures origin == old(origin) && given == old(given) && turns >= old(turns)
      ensures Following(t) && PcOf(View(), t) == Looping(cont, [])
      ensures operateQueue == old(operateQueue + readyQueue) && wire == old(wire) && ops == old(ops)
    {
      hide Inv, Reachable, Driven, Offered, Stepped, Undisturbed, Later, TurnAt, Blocked;
      ghost var u := View();
      AfterLocking(u, t, io, cont);
      operateMutex := Some(t);
      operateQueue := operateQueue + readyQueue;
      readyQueue := [];
      threads := threads[t := Looping(threads[t].cont, [])];
      TurnEnds(origin, t, given, turns, u, View());
      turns := turns + 1;
    }

    method LeaveLoop(t: nat, ghost cont: Cont, ghost io: Io, finished: seq<nat>)
      requires Amid(t, io) && Inv(View()) && PcOf(View(), t) == Looping(cont, finished) && operateQueue == []
      modifies this
      ensures origin == old(origin) && given == old(given) && turns >= old(turns)
      ensures Following(t) && PcOf(View(), t) == Flagging(cont, finished, true) && operateMutex == None
      ensures operateQueue == [] && wire == old(wire) && ops == old(ops)
    {
      hide Inv, Reachable, Driven, Offered, Stepped, Undisturbed, Later, TurnAt, Blocked;
      ghost var u := View();
      AfterLoop(u, t, io, cont, finished);
      operateMutex := None;
      threads := threads[t := Flagging(threads[t].cont, finished, true)];
      TurnEnds(origin, t, given, turns, u, View());
      turns := turns + 1;
    }

    /** One turn: the front operation is dropped if it has timed out, and otherwise tried. */
    method OperateFront(t: nat, ghost cont: Cont, before: seq<nat>, io: Io, ghost q: seq<nat>, ghost wire0: seq<Byte>)
      returns (more: bool, finished: seq<nat>)
      requires Amid(t, io) && Inv(View()) && PcOf(View(), t) == Looping(cont, before) && operateQueue != []
      requires Served(q, wire0, ops, operateQueue, wire, before) && AllFull(ops, before)
      modifies this
      ensures origin == old(origin) && given == old(given) && turns >= old(turns)
      ensures Served(q, wire0, ops, operateQueue, wire, finished)
      ensures finished != [] ==> AllFull(ops, finished[..|finished| - 1])
      ensures if more then AllFull(ops, finished) else operateQueue != [] || !AllFull(ops, finished)
      ensures Following(t) && (more ==> |operateQueue| < |old(operateQueue)|)
      ensures if more then PcOf(View(), t) == Looping(cont, finished)
              else PcOf(View(), t) == Flagging(cont, finished, false) && operateMutex == None
    {
      hide Inv, Reachable, Driven, Offered, Stepped, Served, SameTransfers, Undisturbed, AllFull, Full;
      var o := operateQueue[0];
      ghost var ops0 := ops;
      FrontIsOperation(View());
      FullPrefix(ops, before);
      if ops[o].timeoutFlag {
        ServedDrop(q, wire0, ops, operateQueue, wire, before);
        DroppedSame(ops, o);
        DropFront(t, cont, io, before);
        ServedUndisturbed(q, wire0, ops0, ops, operateQueue, wire, before);
        FullSame(ops0, ops, before);
        FullPrefix(ops, before);
        return true, before;
      }
      if io.WouldBlock? || (io.Bytes? && !(0 < |io.bytes| <= ops[o].need)) {
        LeaveBlocked(t, cont, io, before);
        return false, before;
      }
      TransferFront(t, cont, before, io, q, wire0);
      finished := before + [o];
      ghost var ops1 := ops;
      assert finished[..|finished| - 1] == before;
      more := Publish(t, cont, finished, o);
      ServedUndisturbed(q, wire0, ops1, ops, operateQueue, wire, finished);
      FullSame(ops1, ops, before);
      FullAppend(ops, before, o);
    }

    method DropFront(t: nat, ghost cont: Cont, ghost io: Io, before: seq<nat>)
      requires Amid(t, io) && Inv(View()) && PcOf(View(), t) == Looping(cont, before) && operateQueue != []
      requires operateQueue[0] < |ops| && ops[operateQueue[0]].timeoutFlag
      modifies this
      ensures origin == old(origin) && given == old(given) && turns >= old(turns)
      ensures Following(t) && PcOf(View(), t) == Looping(cont, before)
      ensures operateQueue == old(operateQueue)[1..] && wire == old(wire)
      ensures ops == old(ops)[old(operateQueue)[0] := old(ops)[old(operateQueue)[0]].(stage := Dropped)]
    {
      hide Inv, Reachable, Driven, Offered, Stepped, Undisturbed, Later, TurnAt, Blocked, IoAllowed, DropTimedOut;
      ghost var u := View();
      AfterTimedOutFront(u, t, io, cont, before);
      Discard(t, cont, before);
      TurnEnds(origin, t, given, turns, u, View());
      turns := turns + 1;
    }

    method Discard(t: nat, ghost cont: Cont, before: seq<nat>)
      requires PcOf(View(), t) == Looping(cont, before) && operateQueue != [] && operateQueue[0] < |ops|
      modifies `operateQueue, `ops, `threads
      ensures var u, o := old(View()), old(operateQueue)[0];
              && View() == DropTimedOut(u, t, o, Looping(cont, before)).(queue := u.queue[1..])
              && ops == u.ops[o := u.ops[o].(stage := Dropped)]
      ensures operateQueue == old(operateQueue)[1..] && PcOf(View(), t) == Looping(cont, before)
    {
      var o := operateQueue[0];
      operateQueue := operateQueue[1..];
      ops := ops[o := ops[o].(stage := Dropped)];
      threads := threads[t := Looping(threads[t].cont, before)];
    }

    method LeaveBlocked(t: nat, ghost cont: Cont, ghost io: Io, before: seq<nat>)
      requires Amid(t, io) && Inv(View()) && PcOf(View(), t) == Looping(cont, before) && operateQueue != []
      requires operateQueue[0] < |ops| && !ops[operateQueue[0]].timeoutFlag
      requires io.WouldBlock? || !IoAllowed(View(), operateQueue[0], io)
      modifies this
      ensures origin == old(origin) && given == old(given) && turns >= old(turns)
      ensures Following(t) && PcOf(View(), t) == Flagging(cont, before, false) && operateMutex == None
      ensures operateQueue == old(operateQueue) && wire == old(wire) && ops == old(ops)
    {
      hide Inv, Reachable, Driven, Offered, Stepped, Undisturbed, Later, TurnAt, Blocked;
      ghost var u := View();
      AfterBlockedFront(u, t, io, cont, before);
      attempts := attempts + [operateQueue[0]];
      operateMutex := None;
      threads := threads[t := Flagging(threads[t].cont, before, false)];
      TurnEnds(origin, t, given, turns, u, View());
      turns := turns + 1;
    }

    /** The front operation has moved its bytes, or failed: it is finished. */
    method TransferFront(t: nat, ghost cont: Cont, before: seq<nat>, io: Io, ghost q: seq<nat>, ghost wire0: seq<Byte>)
      requires Amid(t, io) && Inv(View()) && PcOf(View(), t) == Looping(cont, before) && operateQueue != []
      requires IoAllowed(View(), operateQueue[0], io) && !io.WouldBlock? && !ops[operateQueue[0]].timeoutFlag
      requires Served(q, wire0, ops, operateQueue, wire, before)
      modifies this
      ensures origin == old(origin) && given == old(given) && turns >= old(turns)
      ensures Served(q, wire0, ops, operateQueue, wire, before + [old(operateQueue[0])])
      ensures Following(t) && operateQueue == old(operateQueue)[1..]
      ensures PcOf(View(), t) == Publishing(cont, before + [old(operateQueue[0])])
      ensures AllFull(old(ops), before) ==> AllFull(ops, before)
    {
      hide Inv, Reachable, Driven, Offered, Stepped, Served, Undisturbed, AllFull;
      ghost var u := View();
      FrontNotInHand(u, t);
      MoveBytes(t, cont, before, io);
      FullElsewhere(u.ops, ops, before, u.queue[0]);
      ServedTransfer(q, wire0, u.ops, ops, u.queue, u.wire, before);
    }

    method MoveBytes(t: nat, ghost cont: Cont, before: seq<nat>, io: Io)
      requires Amid(t, io) && Inv(View()) && PcOf(View(), t) == Looping(cont, before) && operateQueue != []
      requires IoAllowed(View(), operateQueue[0], io) && !io.WouldBlock? && !ops[operateQueue[0]].timeoutFlag
      modifies this
      ensures origin == old(origin) && given == old(given) && turns >= old(turns)
      ensures Following(t) && operateQueue == old(operateQueue)[1..]
      ensures PcOf(View(), t) == Publishing(cont, before + [old(operateQueue[0])])
      ensures var o, bytes := old(operateQueue[0]), if io.Bytes? then io.bytes else [];
              && ops == old(ops)[o := old(ops)[o].(finishFlag := true, stage := InHand(t), moved := bytes)]
              && wire == old(wire) + bytes
    {
      hide Inv, Reachable, Driven, Offered, Stepped, Undisturbed, Later, TurnAt, Blocked, Transfer;
      ghost var u := View();
      AfterTransfer(u, t, io, cont, before);
      TakeOff(t, cont, before, if io.Bytes? then io.bytes else []);
      TurnEnds(origin, t, given, turns, u, View());
      turns := turns + 1;
    }

    /** What a transfer changes. */
    method TakeOff(t: nat, ghost cont: Cont, before: seq<nat>, bytes: seq<Byte>)
      requires PcOf(View(), t) == Looping(cont, before) && operateQueue != [] && operateQueue[0] < |ops|
      modifies `attempts, `wire, `performed, `operateQueue, `ops, `threads
      ensures View() == Transfer(old(View()), t, cont, before, bytes)
      ensures PcOf(View(), t) == Publishing(cont, before + [old(operateQueue[0])])
      ensures operateQueue == old(operateQueue)[1..] && wire == old(wire) + bytes
      ensures var o := old(operateQueue[0]);
              ops == old(ops)[o := old(ops)[o].(finishFlag := true, stage := InHand(t), moved := bytes)]
    {
      var o := operateQueue[0];
      attempts, wire := attempts + [o], wire + bytes;
      performed := if bytes != [] then performed + [o] else performed;
      operateQueue := operateQueue[1..];
      ops := ops[o := ops[o].(finishFlag := true, stage := InHand(t), moved := bytes)];
      threads := threads[t := Publishing(threads[t].cont, before + [o])];
    }

    /** The part of a turn after the operation's own mutex has been released. */
    method Publish(t: nat, ghost cont: Cont, finished: seq<nat>, o: nat) returns (more: bool)
      requires Following(t) && PcOf(View(), t) == Publishing(cont, finished)
      requires finished != [] && finished[|finished| - 1] == o
      modifies this
      ensures origin == old(origin) && given == old(given) && turns >= old(turns)
      ensures Following(t) && o < |ops| && (more <==> Full(ops[o]))
      ensures operateQueue == old(operateQueue) && wire == old(wire) && SameTransfers(old(ops), ops)
      ensures if more then PcOf(View(), t) == Looping(cont, finished)
              else PcOf(View(), t) == Flagging(cont, finished, false) && operateMutex == None
    {
      hide Inv, Reachable, Driven, Offered, Stepped, SameTransfers, Full;
      HolderIsLooping(View(), t);
      ghost var ops0 := ops;
      var io := Interleave(t);
      ghost var ops1 := ops;
      more := WriteResult(t, cont, io, finished, o);
      ResultSame(ops0, ops1, o);
    }

    method WriteResult(t: nat, ghost cont: Cont, ghost io: Io, finished: seq<nat>, o: nat) returns (more: bool)
      requires Amid(t, io) && Inv(View()) && PcOf(View(), t) == Publishing(cont, finished)
      requires finished != [] && finished[|finished| - 1] == o
      modifies this
      ensures origin == old(origin) && given == old(given) && turns >= old(turns)
      ensures Following(t) && o < |old(ops)| == |ops| && (more <==> Full(ops[o]))
      ensures operateQueue == old(operateQueue) && wire == old(wire)
      ensures || ops == old(ops)[o := old(ops)[o].(result := Success)]
              || ops == old(ops)[o := old(ops)[o].(result := Fail)]
      ensures if more then PcOf(View(), t) == Looping(cont, finished)
              else PcOf(View(), t) == Flagging(cont, finished, false) && operateMutex == None
    {
      hide Inv, Reachable, Driven, Offered, Stepped, Undisturbed, Later, TurnAt, Blocked, NextPublish, Full;
      ghost var u := View();
      AfterPublishing(u, t, io, cont, finished);
      MovedWithinNeed(u, o);
      more := Settle(t, cont, finished, o);
      TurnEnds(origin, t, given, turns, u, View());
      turns := turns + 1;
    }

    /** A failure stops the helper; anything less than the whole request ends the loop. */
    method Settle(t: nat, ghost cont: Cont, finished: seq<nat>, o: nat) returns (more: bool)
      requires PcOf(View(), t) == Publishing(cont, finished) && finished != [] && finished[|finished| - 1] == o < |ops|
      requires |ops[o].moved| <= ops[o].need
      modifies `runFlag, `ops, `operateMutex, `threads
      ensures o < |ops| && (more <==> Full(ops[o]))
      ensures View() == NextPublish(old(View()), t, cont, finished)
      ensures || ops == old(ops)[o := old(ops)[o].(result := Success)]
              || ops == old(ops)[o := old(ops)[o].(result := Fail)]
      ensures if more then PcOf(View(), t) == Looping(cont, finished)
              else PcOf(View(), t) == Flagging(cont, finished, false) && operateMutex == None
    {
      var failed := ops[o].moved == [];
      more := !failed && |ops[o].moved| >= ops[o].need;
      if failed {
        runFlag := false;
      }
      ops := ops[o := ops[o].(result := if failed then Fail else Success)];
      if !more {
        operateMutex := None;
      }
      threads := threads[t := if more then Looping(threads[t].cont, finished)
                              else Flagging(threads[t].cont, finished, false)];
    }

    /** `done` is false only if the thread is still waiting for the mutex when nothing more happens. */
    method DoOperate(t: nat, ghost cont: Cont) returns (done: bool)
      requires Following(t) && PcOf(View(), t) == Entering(cont)
      modifies this
      ensures origin == old(origin) && given == old(given) && turns >= old(turns)
      ensures Following(t) && CallDone(origin, t, given, old(turns), turns)
      ensures if done then PcOf(View(), t) == After(cont) else Blocked(View(), t) && world == []
      ensures done ==> OperateDone(origin, t, given, old(turns), turns)
    {
      hide Inv, Reachable, Driven, Offered, Stepped, Served, Undisturbed, CallDone, OperateDone;
      Enter(t, cont);
      var free, io := AwaitMutex(t);
      if !free {
        done := false;
      } else {
        var finished, ready := DoOperateImp(t, cont, io);
        Flag(t, cont, finished, ready);
        CallBack(t, cont, finished);
        done := EndIfStopped(t, cont);
      }
      CallIsDone(origin, t, given, old(turns), turns);
      if done { OperateIsDone(origin, t, given, old(turns), turns); }
    }

    method Enter(t: nat, ghost cont: Cont)
      requires Following(t) && PcOf(View(), t) == Entering(cont)
      modifies this
      ensures origin == old(origin) && given == old(given) && turns >= old(turns)
      ensures Following(t) && PcOf(View(), t) == Locking(cont)
    {
      hide Inv, Reachable, Driven, Offered, Stepped, Undisturbed, Later, TurnAt, Blocked;
      var io := Interleave(t);
      ghost var u := View();
      AfterEntering(u, t, io, cont);
      operateableFlag := false;
      threads := threads[t := Locking(threads[t].cont)];
      TurnEnds(origin, t, given, turns, u, View());
      turns := turns + 1;
    }

    method Flag(t: nat, ghost cont: Cont, finished: seq<nat>, ready: bool)
      requires Following(t) && PcOf(View(), t) == Flagging(cont, finished, ready)
      modifies this
      ensures origin == old(origin) && given == old(given) && turns >= old(turns)
      ensures Following(t) && PcOf(View(), t) == Calling(cont, finished)
    {
      hide Inv, Reachable, Driven, Offered, Stepped, Undisturbed, Later, TurnAt, Blocked;
      var io := Interleave(t);
      ghost var u := View();
      AfterFlagging(u, t, io, cont, finished, ready);
      if ready {
        operateableFlag := true;
      }
      threads := threads[t := Calling(threads[t].cont, finished)];
      TurnEnds(origin, t, given, turns, u, View());
      turns := turns + 1;
    }

    /** Resumes the finished operations one by one. */
    method CallBack(t: nat, ghost cont: Cont, finished: seq<nat>)
      requires Following(t) && PcOf(View(), t) == Calling(cont, finished)
      modifies this
      ensures origin == old(origin) && given == old(given) && turns >= old(turns)
      ensures Following(t) && PcOf(View(), t) == Calling(cont, [])
    {
      hide Inv, Reachable, Driven, Offered, Stepped, Undisturbed, Later, TurnAt, Blocked;
      var rest := finished;
      while rest != []
        invariant Following(t) && PcOf(View(), t) == Calling(cont, rest)
        invariant origin == old(origin) && given == old(given) && turns >= old(turns)
        decreases |rest|
      {
        var io := Interleave(t);
        ghost var u := View();
        AfterCalling(u, t, io, cont, rest);
        threads := threads[t := Resuming(threads[t].cont, rest)];
        TurnEnds(origin, t, given, turns, u, View());
        turns := turns + 1;
        ResumeFirst(t, cont, rest);
        rest := rest[1..];
      }
    }

    method ResumeFirst(t: nat, ghost cont: Cont, rest: seq<nat>)
      requires Following(t) && PcOf(View(), t) == Resuming(cont, rest)
      modifies this
      ensures origin == old(origin) && given == old(given) && turns >= old(turns)
      ensures rest != [] && Following(t) && PcOf(View(), t) == Calling(cont, rest[1..])
    {
      hide Inv, Reachable, Driven, Offered, Stepped, Undisturbed, Later, TurnAt, Blocked;
      var io := Interleave(t);
      ghost var u := View();
      AfterResuming(u, t, io, cont, rest);
      Resume(rest[0]);
      threads := threads[t := Calling(threads[t].cont, rest[1..])];
      TurnEnds(origin, t, given, turns, u, View());
      turns := turns + 1;
    }

    method Resume(o: nat)
      requires o < |ops|
      modifies this`ops
      ensures ops == old(ops)[o := old(ops)[o].(stage := Called, resumes := old(ops)[o].resumes + 1)]
    {
      ops := ops[o := ops[o].(stage := Called, resumes := ops[o].resumes + 1)];
    }

    /** With everything resumed, ends all other operations if the helper is not running any more. */
    method EndIfStopped(t: nat, ghost cont: Cont) returns (done: bool)
      requires Following(t) && PcOf(View(), t) == Calling(cont, [])
      modifies this
      ensures origin == old(origin) && given == old(given) && turns >= old(turns)
      ensures Following(t)
      ensures if done then PcOf(View(), t) == After(cont) else Blocked(View(), t) && world == []
    {
      hide Inv, Reachable, Driven, Offered, Stepped, Undisturbed, CallDone;
      var io := Interleave(t);
      ghost var u := View();
      AfterCalling(u, t, io, cont, []);
      var stopped := !runFlag;
      threads := threads[t := if stopped then Ending(threads[t].cont) else After(threads[t].cont)];
      TurnEnds(origin, t, given, turns, u, View());
      turns := turns + 1;
      done := true;
      if stopped {
        done := EndAllOperate(t, cont);
      }
    }

    method EndAllOperate(t: nat, ghost cont: Cont) returns (done: bool)
      requires Following(t) && PcOf(View(), t) == Ending(cont)
      modifies this
      ensures origin == old(origin) && given == old(given) && turns >= old(turns)
      ensures Following(t) && CallDone(origin, t, given, old(turns), turns)
      ensures if done then PcOf(View(), t) == After(cont) else Blocked(View(), t) && world == []
    {
      hide Inv, Reachable, Driven, Offered, Stepped, Undisturbed, CallDone;
      var free, io := AwaitMutex(t);
      if !free {
        done := false;
      } else {
        var mine := TakeBoth(t, cont, io);
        while mine != []
          invariant Following(t) && PcOf(View(), t) == EndLoop(cont, mine)
          invariant origin == old(origin) && given == old(given) && turns >= old(turns)
          decreases |mine|
        {
          EndFront(t, cont, mine);
          mine := mine[1..];
        }
        EndReturns(t, cont);
        done := true;
      }
      CallIsDone(origin, t, given, old(turns), turns);
    }

    /** Empties both queues at once. */
    method TakeBoth(t: nat, ghost cont: Cont, ghost io: Io) returns (mine: seq<nat>)
      requires Amid(t, io) && Inv(View()) && PcOf(View(), t) == Ending(cont) && operateMutex == None
      modifies this
      ensures origin == old(origin) && given == old(given) && turns >= old(turns)
      ensures Following(t) && PcOf(View(), t) == EndLoop(cont, mine)
      ensures mine == old(operateQueue + readyQueue) && operateQueue == readyQueue == []
    {
      hide Inv, Reachable, Driven, Offered, Stepped, Undisturbed, Later, TurnAt, Blocked, TakeAll;
      ghost var u := View();
      AfterEnding(u, t, io, cont);
      mine := EmptyQueues(t, cont);
      TurnEnds(origin, t, given, turns, u, View());
      turns := turns + 1;
    }

    method EmptyQueues(t: nat, ghost cont: Cont) returns (mine: seq<nat>)
      requires PcOf(View(), t) == Ending(cont)
      modifies `operateQueue, `readyQueue, `ops, `threads
      ensures View() == TakeAll(old(View()), t, cont) && PcOf(View(), t) == EndLoop(cont, mine)
      ensures mine == old(operateQueue + readyQueue) && operateQueue == readyQueue == []
    {
      hide PutInHand;
      mine := operateQueue + readyQueue;
      operateQueue, readyQueue := [], [];
      ops := PutInHand(ops, mine, t);
      threads := threads[t := EndLoop(threads[t].cont, mine)];
    }

    method EndReturns(t: nat, ghost cont: Cont)
      requires Following(t) && PcOf(View(), t) == EndLoop(cont, [])
      modifies this
      ensures origin == old(origin) && given == old(given) && turns >= old(turns)
      ensures Following(t) && PcOf(View(), t) == After(cont)
    {
      hide Inv, Reachable, Driven, Offered, Stepped, Undisturbed, Later, TurnAt, Blocked;
      var io := Interleave(t);
      ghost var u := View();
      AfterEndLoop(u, t, io, cont, []);
      threads := threads[t := After(threads[t].cont)];
      TurnEnds(origin, t, given, turns, u, View());
      turns := turns + 1;
    }

    /** One turn: the operation is dropped if it has timed out, and otherwise finished. */
    method EndFront(t: nat, ghost cont: Cont, mine: seq<nat>)
      requires Following(t) && PcOf(View(), t) == EndLoop(cont, mine) && mine != []
      modifies this
      ensures origin == old(origin) && given == old(given) && turns >= old(turns)
      ensures Following(t) && PcOf(View(), t) == EndLoop(cont, mine[1..])
    {
      hide Inv, Reachable, Driven, Offered, Stepped, Undisturbed, Later, TurnAt, Blocked;
      var io := Interleave(t);
      ghost var u := View();
      AfterEndLoop(u, t, io, cont, mine);
      var o := mine[0];
      var late := ops[o].timeoutFlag;
      if late {
        ops := ops[o := ops[o].(stage := Dropped)];
        threads := threads[t := EndLoop(threads[t].cont, mine[1..])];
      } else {
        ops := ops[o := ops[o].(finishFlag := true)];
        threads := threads[t := EndPublishing(threads[t].cont, mine)];
      }
      TurnEnds(origin, t, given, turns, u, View());
      turns := turns + 1;
      if !late {
        EndOne(t, cont, mine);
      }
    }

    /** Reports the disconnection of one operation and resumes it. */
    method EndOne(t: nat, ghost cont: Cont, mine: seq<nat>)
      requires Following(t) && PcOf(View(), t) == EndPublishing(cont, mine)
      modifies this
      ensures origin == old(origin) && given == old(given) && turns >= old(turns)
      ensures mine != [] && Following(t) && PcOf(View(), t) == EndLoop(cont, mine[1..])
    {
      hide Inv, Reachable, Driven, Offered, Stepped, Undisturbed, Later, TurnAt, Blocked;
      var io := Interleave(t);
      ghost var u := View();
      AfterEndPublishing(u, t, io, cont, mine);
      ops := ops[mine[0] := ops[mine[0]].(result := Disconnected)];
      threads := threads[t := EndStopping(threads[t].cont, mine)];
      TurnEnds(origin, t, given, turns, u, View());
      turns := turns + 1;
      StopAlarm(t, cont, mine);
      EndResume(t, cont, mine);
    }

    /** IoCallback's StopTask; the timer is not part of the helper. */
    method StopAlarm(t: nat, ghost cont: Cont, mine: seq<nat>)
      requires Following(t) && PcOf(View(), t) == EndStopping(cont, mine)
      modifies this
      ensures origin == old(origin) && given == old(given) && turns >= old(turns)
      ensures Following(t) && PcOf(View(), t) == EndResuming(cont, mine)
    {
      hide Inv, Reachable, Driven, Offered, Stepped, Undisturbed, Later, TurnAt, Blocked;
      var io := Interleave(t);
      ghost var u := View();
      AfterEndStopping(u, t, io, cont, mine);
      threads := threads[t := EndResuming(threads[t].cont, mine)];
      TurnEnds(origin, t, given, turns, u, View());
      turns := turns + 1;
    }

    method EndResume(t: nat, ghost cont: Cont, mine: seq<nat>)
      requires Following(t) && PcOf(View(), t) == EndResuming(cont, mine)
      modifies this
      ensures origin == old(origin) && given == old(given) && turns >= old(turns)
      ensures mine != [] && Following(t) && PcOf(View(), t) == EndLoop(cont, mine[1..])
    {
      hide Inv, Reachable, Driven, Offered, Stepped, Undisturbed, Later, TurnAt, Blocked;
      var io := Interleave(t);
      ghost var u := View();
      AfterEndResuming(u, t, io, cont, mine);
      Resume(mine[0]);
      threads := threads[t := EndLoop(threads[t].cont, mine[1..])];
      TurnEnds(origin, t, given, turns, u, View());
      turns := turns + 1;
    }

    /** A call begins here, with the thread's first section done. */
    ghost method Begin(t: nat)
      requires Valid()
      modifies `origin, `given, `turns
      ensures origin == View() && given == world && turns == 0 && Inv(View()) && Following(t)
    {
      hide Inv, Reachable;
      origin, given, turns := View(), world, 0;
      LaterTurns(given, 0);
    }

    /** A new operation: queue it, serve the queue if the socket is thought ready, then start its timer task. */
    method AwaitSuspend(t: nat, need: nat) returns (o: nat, done: bool)
      requires Valid() && PcOf(View(), t) == Idle
      modifies this
      ensures origin == Next(old(View()), Submit(t, need)) && given == old(world) && o == |old(ops)|
      ensures Valid() && Following(t) && CallDone(origin, t, given, 0, turns)
      ensures if done then PcOf(View(), t) == Idle && o < |ops| && ops[o].alarm == Armed
              else Blocked(View(), t) && world == []
      ensures done && Offered(origin, t, TurnAt(given, 0).others).operateable ==>
                OperateDone(origin, t, given, 1, turns)
    {
      hide Inv, Reachable, Driven, Offered, Stepped, Undisturbed, CallDone, Numbered, OperateDone;
      ReachableNext(View(), Submit(t, need));
      o := |ops|;
      readyQueue := readyQueue + [o];
      ops := ops + [Op(need, t, false, false, Pending, [], Queued, Unarmed, NotExpired, 0)];
      threads := threads[t := Checking(o)];
      Begin(t);
      done := SuspendOn(t, o);
      DrivenReachable(origin, t, given, turns);
      CallIsDone(origin, t, given, 0, turns);
    }

    method SuspendOn(t: nat, o: nat) returns (done: bool)
      requires Following(t) && PcOf(View(), t) == Checking(o)
      modifies this
      ensures origin == old(origin) && given == old(given) && turns >= old(turns)
      ensures Following(t)
      ensures if done then PcOf(View(), t) == Idle && o < |ops| && ops[o].alarm == Armed
              else Blocked(View(), t) && world == []
      ensures done && Offered(old(View()), t, TurnAt(given, old(turns)).others).operateable ==>
                OperateDone(origin, t, given, old(turns) + 1, turns)
    {
      hide Inv, Reachable, Driven, Offered, Stepped, Undisturbed, CallDone, OperateDone;
      var io := Interleave(t);
      ghost var u := View();
      AfterChecking(u, t, io, o);
      var able := operateableFlag;
      threads := threads[t := if able then Entering(Arm(o)) else Arming(o)];
      TurnEnds(origin, t, given, turns, u, View());
      turns := turns + 1;
      if able {
        done := DoOperate(t, Arm(o));
        if !done {
          return;
        }
      }
      StartAlarm(t, o);
      done := true;
      if able { OperateIsDone(origin, t, given, old(turns) + 1, turns); }
    }

    method StartAlarm(t: nat, o: nat)
      requires Following(t) && PcOf(View(), t) == Arming(o)
      modifies this
      ensures origin == old(origin) && given == old(given) && turns >= old(turns)
      ensures Following(t) && PcOf(View(), t) == Idle && o < |ops| && ops[o].alarm == Armed
    {
      hide Inv, Reachable, Driven, Offered, Stepped, Undisturbed, Later, TurnAt, Blocked;
      var io := Interleave(t);
      ghost var u := View();
      AfterArming(u, t, io, o);
      ops := ops[o := ops[o].(alarm := Armed)];
      threads := threads[t := Idle];
      TurnEnds(origin, t, given, turns, u, View());
      turns := turns + 1;
    }

    method OnOperate(t: nat) returns (done: bool)
      requires Valid() && PcOf(View(), t) == Idle
      modifies this
      ensures origin == Next(old(View()), ReadWriteSpec.OnOperate(t)) && given == old(world)
      ensures Valid() && Following(t) && CallDone(origin, t, given, 0, turns)
      ensures if done then PcOf(View(), t) == Idle else Blocked(View(), t) && world == []
      ensures done ==> OperateDone(origin, t, given, 0, turns)
    {
      hide Inv, Reachable, Driven, CallDone, Numbered, OperateDone;
      ReachableNext(View(), ReadWriteSpec.OnOperate(t));
      operateableFlag := true;
      threads := threads[t := Entering(Back)];
      Begin(t);
      done := DoOperate(t, Back);
      DrivenReachable(origin, t, given, turns);
    }

    method Stop(t: nat) returns (done: bool)
      requires Valid() && PcOf(View(), t) == Idle
      modifies this
      ensures origin == Next(old(View()), ReadWriteSpec.Stop(t)) && given == old(world)
      ensures Valid() && Following(t) && CallDone(origin, t, given, 0, turns)
      ensures if done then PcOf(View(), t) == Idle else Blocked(View(), t) && world == []
      ensures done ==> |old(ops)| <= |ops| && forall o | 0 <= o < |old(ops)| :: !ops[o].stage.Queued?
    {
      hide Inv, Reachable, Driven, Numbered, CallDone;
      ReachableNext(View(), ReadWriteSpec.Stop(t));
      runFlag := false;
      threads := threads[t := Ending(Back)];
      Begin(t);
      done := EndAllOperate(t, Back);
      DrivenReachable(origin, t, given, turns);
      if done { EndingDone(origin, t, given, turns); }
    }

    method Start()
      requires Valid()
      modifies this
      ensures Valid() && View() == old(View()).(run := true)
    {
      hide Inv, Reachable, Numbered;
      ReachableNext(View(), ReadWriteSpec.Start);
      runFlag := true;
    }

    /** Lets others run during a callback for operation `o`. */
    method InterleaveCallback(o: nat)
      requires Valid() && o < |ops|
      modifies this
      ensures Valid() && View() == Around(old(View()), o, TurnAt(old(world), 0).others) && world == Later(old(world), 1)
      ensures o < |ops| && ops[o].expiry == old(ops[o].expiry)
    {
      hide Inv, Reachable, Next, Enabled, Numbered, Around;
      ghost var s, before := View(), world;
      LaterTurns(before, 0);
      AroundNone(s, o);
      var turn := if world == [] then Turn([], WouldBlock) else world[0];
      world := if world == [] then [] else world[1..];
      for i := 0 to |turn.others|
        invariant Valid() && View() == Around(s, o, turn.others[..i]) && world == Later(before, 1)
        invariant o < |ops| && ops[o].expiry == old(ops[o].expiry)
      {
        var a := turn.others[i];
        AroundOne(s, o, turn.others, i);
        if !Expires(a, o) && Enabled(View(), a) {
          OthersLeaveExpiry(View(), a, o);
          ReachableNext(View(), a);
          Act(a);
        }
      }
      assert turn.others[..|turn.others|] == turn.others;
    }

    /** The timer task's callback: it resumes the operation exactly if the operation has not finished yet. */
    method OnTimeout(o: nat)
      requires Valid() && o < |ops| && ops[o].alarm == Armed
      modifies this
      ensures Valid() && View() == Expired(old(View()), o, old(world))
      ensures o < |ops| && ops[o].expiry == if old(ops[o].finishFlag) then NotExpired else Resumed
    {
      hide Inv, Reachable, Took, Around;
      LaterTurns(world, 0);
      AfterRing(View(), o);
      if ops[o].finishFlag {
        ops := ops[o := ops[o].(alarm := Rung)];
        return;
      }
      ops := ops[o := ops[o].(alarm := Rung, timeoutFlag := true, expiry := Marked)];
      InterleaveCallback(o);
      AfterExpiryName(View(), o);
      ops := ops[o := ops[o].(result := TimedOut, expiry := Named)];
      InterleaveCallback(o);
      AfterExpiryResume(View(), o);
      ops := ops[o := ops[o].(resumes := ops[o].resumes + 1, expiry := Resumed)];
    }
  }

  /** What CallDone says for a call that began by ending all operations. */
  lemma EndingDone(origin: State, t: nat, given: seq<Turn>, n: nat)
    requires Inv(origin) && PcOf(origin, t).Ending? && CallDone(origin, t, given, 0, n)
    requires !PcOf(Driven(origin, t, given, n), t).Ending?
    ensures var u := Driven(origin, t, given, n);
            |origin.ops| <= |u.ops| && forall o | 0 <= o < |origin.ops| :: !u.ops[o].stage.Queued?
  {
    hide Inv;
    assert Driven(origin, t, given, 0) == origin;
  }
}
