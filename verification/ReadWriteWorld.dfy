/** A thread of the helper among the others: turns of their actions, one before each of its sections, and where the
    thread and the helper stand after so many turns. */
module ReadWriteWorld {
  import opened Options
  import opened ReadWriteSpec
  import opened ReadWriteProof
  import opened ReadWriteRuns

  /** Before a thread's next section: the actions others try, and the outcome a read or write would have. */
  datatype Turn = Turn(others: seq<Action>, io: Io)

  predicate ByOther(a: Action, t: nat) {
    match a
    case Submit(x, _) => x != t
    case OnOperate(x) => x != t
    case Stop(x) => x != t
    case Step(x, _) => x != t
    case _ => true
  }

  ghost predicate SameTransfers(a: seq<Op>, b: seq<Op>) {
    && |a| <= |b|
    && forall o | 0 <= o < |a| ::
         b[o].moved == a[o].moved && b[o].need == a[o].need && (a[o].timeoutFlag ==> b[o].timeoutFlag)
  }

  /** What only the holder of the mutex changes is as it was, and no time-out has been taken back. */
  ghost predicate Undisturbed(s: State, u: State) {
    && u.holder == s.holder && u.queue == s.queue
    && u.wire == s.wire && u.performed == s.performed && u.attempts == s.attempts
    && SameTransfers(s.ops, u.ops)
  }

  /** Others do not move a thread, and while it holds the mutex they leave its work alone. */
  lemma OthersStayAway(s: State, a: Action, t: nat)
    requires Inv(s) && Enabled(s, a) && ByOther(a, t)
    ensures PcOf(Next(s, a), t) == PcOf(s, t)
    ensures s.holder == Some(t) ==> Undisturbed(s, Next(s, a))
  {
    hide Inv, NextStep, Locked;
    LockParts(s);
    if a.Step? {
      OthersMove(s, a.thread, a.io, t);
      if s.holder == Some(t) { OthersLock(s, a.thread, a.io, t); }
    }
  }

  lemma OthersMove(s: State, x: nat, io: Io, t: nat)
    requires Numbered(s) && Enabled(s, Step(x, io)) && x != t
    ensures PcOf(NextStep(s, x, io), t) == PcOf(s, t)
  {
    hide NextIo, NextEnd, NextPublish, TakeAll, ResumeIo;
    var pc := PcOf(s, x);
    var hand := Hand(pc);
    assert hand != [] ==> hand[0] < |s.ops| && hand[|hand| - 1] < |s.ops|;
    match pc
    case Looping(cont, fin) => IoMoves(s, x, cont, fin, io, t);
    case Publishing(cont, fin) => PublishMoves(s, x, cont, fin, t);
    case Ending(cont) => TakeMoves(s, x, cont, t);
    case EndLoop(cont, rest) => EndMoves(s, x, cont, rest, t);
    case Resuming(cont, fin) => ResumeMoves(s, x, fin[0], Calling(cont, fin[1..]), t);
    case EndResuming(cont, rest) => ResumeMoves(s, x, rest[0], EndLoop(cont, rest[1..]), t);
    case _ =>
  }

  lemma IoMoves(s: State, x: nat, cont: Cont, fin: seq<nat>, io: Io, t: nat)
    requires Numbered(s) && (s.queue != [] ==> IoAllowed(s, s.queue[0], io)) && x != t
    ensures PcOf(NextIo(s, x, cont, fin, io), t) == PcOf(s, t)
  {
  }

  lemma PublishMoves(s: State, x: nat, cont: Cont, fin: seq<nat>, t: nat)
    requires fin != [] && fin[|fin| - 1] < |s.ops| && x != t
    ensures PcOf(NextPublish(s, x, cont, fin), t) == PcOf(s, t)
  {
  }

  lemma TakeMoves(s: State, x: nat, cont: Cont, t: nat)
    requires x != t
    ensures PcOf(TakeAll(s, x, cont), t) == PcOf(s, t)
  {
  }

  lemma EndMoves(s: State, x: nat, cont: Cont, rest: seq<nat>, t: nat)
    requires (rest != [] ==> rest[0] < |s.ops|) && x != t
    ensures PcOf(NextEnd(s, x, cont, rest), t) == PcOf(s, t)
  {
  }

  lemma ResumeMoves(s: State, x: nat, o: nat, pc: Pc, t: nat)
    requires o < |s.ops| && x != t
    ensures PcOf(ResumeIo(s, x, o, pc), t) == PcOf(s, t)
  {
  }

  lemma OthersLock(s: State, x: nat, io: Io, t: nat)
    requires Numbered(s) && Enabled(s, Step(x, io)) && x != t && s.holder == Some(t)
    requires Locked(PcOf(s, x)) ==> s.holder == Some(x)
    ensures Undisturbed(s, NextStep(s, x, io))
  {
    hide NextIo, NextEnd, NextPublish, TakeAll, ResumeIo;
    var pc := PcOf(s, x);
    var hand := Hand(pc);
    assert hand != [] ==> hand[0] < |s.ops|;
    match pc
    case EndLoop(cont, rest) => EndUndisturbed(s, x, cont, rest);
    case Resuming(cont, fin) => ResumeUndisturbed(s, x, fin[0], Calling(cont, fin[1..]));
    case EndResuming(cont, rest) => ResumeUndisturbed(s, x, rest[0], EndLoop(cont, rest[1..]));
    case _ =>
  }

  lemma EndUndisturbed(s: State, x: nat, cont: Cont, rest: seq<nat>)
    requires rest != [] ==> rest[0] < |s.ops|
    ensures Undisturbed(s, NextEnd(s, x, cont, rest))
  {
  }

  lemma ResumeUndisturbed(s: State, x: nat, o: nat, pc: Pc)
    requires o < |s.ops|
    ensures Undisturbed(s, ResumeIo(s, x, o, pc))
  {
  }

  lemma LockParts(s: State)
    requires Inv(s)
    ensures forall t: nat :: Locked(PcOf(s, t)) <==> s.holder == Some(t)
  {
  }

  /** The front of the queue is not in the hand of anyone. */
  lemma FrontNotInHand(s: State, t: nat)
    requires Inv(s) && s.queue != []
    ensures s.queue[0] !in Hand(PcOf(s, t))
  {
    FrontIsQueued(s);
    HeldIsInHand(s, t);
  }

  lemma FrontIsQueued(s: State)
    requires Inv(s) && s.queue != []
    ensures s.queue[0] < |s.ops| && s.ops[s.queue[0]].stage.Queued?
  {
    assert s.queue[0] == Front(s) + 0;
  }

  lemma HeldIsInHand(s: State, t: nat)
    requires Inv(s)
    ensures forall i | 0 <= i < |Hand(PcOf(s, t))| ::
              Hand(PcOf(s, t))[i] < |s.ops| && s.ops[Hand(PcOf(s, t))[i]].stage.InHand?
  {
    forall i | 0 <= i < |Hand(PcOf(s, t))|
      ensures Hand(PcOf(s, t))[i] < |s.ops| && s.ops[Hand(PcOf(s, t))[i]].stage.InHand?
    {
      assert HandOk(s.ops, t, PcOf(s, t)) && Holds(s.ops, t, PcOf(s, t), i);
    }
  }

  // ----- turns

  /** After the last turn nobody else does anything, and the socket would block. */
  function TurnAt(given: seq<Turn>, n: nat): Turn {
    if n < |given| then given[n] else Turn([], WouldBlock)
  }

  function Later(given: seq<Turn>, n: nat): seq<Turn> {
    if n < |given| then given[n..] else []
  }

  lemma LaterTurns(given: seq<Turn>, n: nat)
    ensures Later(given, n) == [] ==> TurnAt(given, n) == Turn([], WouldBlock) && Later(given, n + 1) == []
    ensures Later(given, n) != [] ==>
              TurnAt(given, n) == Later(given, n)[0] && Later(given, n + 1) == Later(given, n)[1..]
    ensures Later(given, 0) == given
  {
  }

  /** What others try happens if it is possible at that moment. */
  ghost function Offered(s: State, t: nat, actions: seq<Action>): (u: State)
    requires Inv(s)
    ensures Inv(u)
    decreases |actions|
  {
    hide Inv;
    if actions == [] then s
    else
      var u, a := Offered(s, t, actions[..|actions| - 1]), actions[|actions| - 1];
      if ByOther(a, t) && Enabled(u, a) then
        NextKeepsInv(u, a);
        Next(u, a)
      else u
  }

  lemma OfferedNone(s: State, t: nat)
    requires Inv(s)
    ensures Offered(s, t, []) == s
  {
  }

  lemma OfferedOne(s: State, t: nat, actions: seq<Action>, i: nat)
    requires Inv(s) && i < |actions|
    ensures var u, a := Offered(s, t, actions[..i]), actions[i];
            Offered(s, t, actions[..i + 1]) == if ByOther(a, t) && Enabled(u, a) then Next(u, a) else u
  {
    hide Inv;
    assert actions[..i + 1][..i] == actions[..i];
  }

  /** A thread waits for the operating mutex. */
  predicate Blocked(s: State, t: nat) {
    (PcOf(s, t).Locking? || PcOf(s, t).Ending?) && s.holder != None
  }

  /** An outcome no call could have counts as one that would block. */
  function IoFor(s: State, t: nat, io: Io): Io {
    if PcOf(s, t).Looping? && s.queue != [] && !IoAllowed(s, s.queue[0], io) then WouldBlock else io
  }

  /** The thread's own section leads from `s` to `u`. */
  ghost predicate Stepped(s: State, t: nat, io: Io, u: State) {
    && Inv(s) && PcOf(s, t) != Idle && !Blocked(s, t)
    && Enabled(s, Step(t, IoFor(s, t, io)))
    && u == Next(s, Step(t, IoFor(s, t, io)))
  }

  lemma CanStep(s: State, t: nat, io: Io)
    requires Inv(s) && PcOf(s, t) != Idle && !Blocked(s, t)
    ensures Stepped(s, t, io, Next(s, Step(t, IoFor(s, t, io))))
  {
    hide Inv, Numbered;
    if PcOf(s, t).Looping? && s.queue != [] { FrontIsQueued(s); }
  }

  /** One turn of the others and the thread's section, unless the thread is through or has to wait. */
  ghost function TurnTaken(s: State, t: nat, turn: Turn): (u: State)
    requires Inv(s)
    ensures Inv(u)
  {
    hide Inv, Offered;
    var u := Offered(s, t, turn.others);
    if PcOf(u, t) == Idle || Blocked(u, t) then u
    else
      CanStep(u, t, turn.io);
      NextKeepsInv(u, Step(t, IoFor(u, t, turn.io)));
      Next(u, Step(t, IoFor(u, t, turn.io)))
  }

  /** The state after `n` turns of the thread. */
  ghost function Driven(origin: State, t: nat, given: seq<Turn>, n: nat): (u: State)
    requires Inv(origin)
    ensures Inv(u)
  {
    hide Inv;
    if n == 0 then origin else TurnTaken(Driven(origin, t, given, n - 1), t, TurnAt(given, n - 1))
  }

  /** The thread's section ends the turn. */
  lemma TurnEnds(origin: State, t: nat, given: seq<Turn>, n: nat, u: State, x: State)
    requires Inv(origin) && u == Offered(Driven(origin, t, given, n), t, TurnAt(given, n).others)
    requires Stepped(u, t, TurnAt(given, n).io, x)
    ensures x == Driven(origin, t, given, n + 1)
  {
    hide Inv, Next, Offered;
  }

  lemma TurnWaits(origin: State, t: nat, given: seq<Turn>, n: nat, u: State)
    requires Inv(origin) && u == Offered(Driven(origin, t, given, n), t, TurnAt(given, n).others)
    requires Blocked(u, t)
    ensures u == Driven(origin, t, given, n + 1)
  {
    hide Inv, Next, Offered;
  }

  /** Whatever holds at the start and is kept by others and by the thread holds after all turns: reachability. */
  lemma {:induction false} OfferedReachable(s: State, t: nat, actions: seq<Action>)
    requires Reachable(s) && Inv(s)
    ensures Reachable(Offered(s, t, actions))
    decreases |actions|
  {
    hide Inv, Reachable, Next;
    if actions != [] {
      var u, a := Offered(s, t, actions[..|actions| - 1]), actions[|actions| - 1];
      OfferedReachable(s, t, actions[..|actions| - 1]);
      if ByOther(a, t) && Enabled(u, a) { ReachableNext(u, a); }
    }
  }

  lemma TurnReachable(s: State, t: nat, turn: Turn)
    requires Reachable(s) && Inv(s)
    ensures Reachable(TurnTaken(s, t, turn))
  {
    hide Inv, Reachable, Next, Offered;
    var u := Offered(s, t, turn.others);
    OfferedReachable(s, t, turn.others);
    if PcOf(u, t) != Idle && !Blocked(u, t) {
      CanStep(u, t, turn.io);
      ReachableNext(u, Step(t, IoFor(u, t, turn.io)));
    }
  }

  lemma {:induction false} DrivenReachable(origin: State, t: nat, given: seq<Turn>, n: nat)
    requires Reachable(origin) && Inv(origin)
    ensures Reachable(Driven(origin, t, given, n))
  {
    hide Inv, Reachable, TurnTaken;
    if n > 0 {
      DrivenReachable(origin, t, given, n - 1);
      TurnReachable(Driven(origin, t, given, n - 1), t, TurnAt(given, n - 1));
    }
  }

  lemma {:induction false} OfferedStaysAway(s: State, t: nat, actions: seq<Action>)
    requires Inv(s)
    ensures PcOf(Offered(s, t, actions), t) == PcOf(s, t)
    ensures s.holder == Some(t) ==> Undisturbed(s, Offered(s, t, actions))
    decreases |actions|
  {
    hide Inv, Next, Enabled;
    if actions != [] {
      var u, a := Offered(s, t, actions[..|actions| - 1]), actions[|actions| - 1];
      OfferedStaysAway(s, t, actions[..|actions| - 1]);
      if ByOther(a, t) && Enabled(u, a) { OthersStayAway(u, a, t); }
    }
  }

  // ----- no turn takes an operation back

  /** Marks stay, what has left the queues stays off them, and what has been called back stays so. */
  ghost predicate Advances(a: seq<Op>, b: seq<Op>) {
    && |a| <= |b|
    && forall o | 0 <= o < |a| ::
         && (a[o].timeoutFlag ==> b[o].timeoutFlag) && (a[o].finishFlag ==> b[o].finishFlag)
         && (!a[o].stage.Queued? ==> !b[o].stage.Queued?)
         && (a[o].stage.Called? ==> b[o].stage.Called?)
  }

  lemma AdvancesOn(a: seq<Op>, b: seq<Op>, c: seq<Op>)
    requires Advances(a, b) && Advances(b, c)
    ensures Advances(a, c)
  {
  }

  /** What a thread works on has not been called back. */
  ghost predicate Uncalled(s: State, q: seq<nat>) {
    forall i | 0 <= i < |q| :: q[i] < |s.ops| && !s.ops[q[i]].stage.Called?
  }

  lemma WorkIsUncalled(s: State, x: nat)
    requires Inv(s)
    ensures Uncalled(s, s.queue + s.ready) && Uncalled(s, Hand(PcOf(s, x)))
    ensures s.queue != [] ==> s.queue[0] < |s.ops| && !s.ops[s.queue[0]].stage.Called?
  {
    QueuesAreUncalled(s);
    HeldIsInHand(s, x);
    hide Inv;
    if s.queue != [] { assert (s.queue + s.ready)[0] == s.queue[0]; }
  }

  lemma QueuesAreUncalled(s: State)
    requires Inv(s)
    ensures Uncalled(s, s.queue + s.ready)
  {
    forall i | 0 <= i < |s.queue + s.ready|
      ensures (s.queue + s.ready)[i] < |s.ops| && !s.ops[(s.queue + s.ready)[i]].stage.Called?
    {
      QueuedIsFresh(s, i);
    }
  }

  lemma ActionAdvances(s: State, a: Action)
    requires Inv(s) && Enabled(s, a)
    ensures Advances(s.ops, Next(s, a).ops)
  {
    hide Inv, NextStep, Uncalled;
    if a.Step? {
      WorkIsUncalled(s, a.thread);
      StepAdvances(s, a.thread, a.io);
    }
  }

  lemma StepAdvances(s: State, x: nat, io: Io)
    requires Numbered(s) && Enabled(s, Step(x, io))
    requires Uncalled(s, s.queue + s.ready) && Uncalled(s, Hand(PcOf(s, x)))
    requires s.queue != [] ==> s.queue[0] < |s.ops| && !s.ops[s.queue[0]].stage.Called?
    ensures Advances(s.ops, NextStep(s, x, io).ops)
  {
    hide NextIo, NextEnd, NextPublish, TakeAll, ResumeIo;
    var pc := PcOf(s, x);
    var hand := Hand(pc);
    assert hand != [] ==> hand[0] < |s.ops| && hand[|hand| - 1] < |s.ops|;
    match pc
    case Looping(cont, fin) => IoAdvances(s, x, cont, fin, io);
    case Publishing(cont, fin) => PublishAdvances(s, x, cont, fin);
    case Ending(cont) => TakeAdvances(s, x, cont);
    case EndLoop(cont, rest) => EndAdvances(s, x, cont, rest);
    case Resuming(cont, fin) => ResumeAdvances(s, x, fin[0], Calling(cont, fin[1..]));
    case EndResuming(cont, rest) => ResumeAdvances(s, x, rest[0], EndLoop(cont, rest[1..]));
    case _ =>
  }

  lemma IoAdvances(s: State, x: nat, cont: Cont, fin: seq<nat>, io: Io)
    requires Numbered(s) && (s.queue != [] ==> IoAllowed(s, s.queue[0], io))
    requires s.queue != [] ==> !s.ops[s.queue[0]].stage.Called?
    ensures Advances(s.ops, NextIo(s, x, cont, fin, io).ops)
  {
    hide Numbered;
  }

  lemma PublishAdvances(s: State, x: nat, cont: Cont, fin: seq<nat>)
    requires fin != [] && fin[|fin| - 1] < |s.ops|
    ensures Advances(s.ops, NextPublish(s, x, cont, fin).ops)
  {
  }

  lemma TakeAdvances(s: State, x: nat, cont: Cont)
    requires Uncalled(s, s.queue + s.ready)
    ensures Advances(s.ops, TakeAll(s, x, cont).ops)
  {
  }

  lemma EndAdvances(s: State, x: nat, cont: Cont, rest: seq<nat>)
    requires rest != [] ==> rest[0] < |s.ops| && !s.ops[rest[0]].stage.Called?
    ensures Advances(s.ops, NextEnd(s, x, cont, rest).ops)
  {
  }

  lemma ResumeAdvances(s: State, x: nat, o: nat, pc: Pc)
    requires o < |s.ops|
    ensures Advances(s.ops, ResumeIo(s, x, o, pc).ops)
  {
  }

  lemma {:induction false} OfferedAdvances(s: State, t: nat, actions: seq<Action>)
    requires Inv(s)
    ensures Advances(s.ops, Offered(s, t, actions).ops)
    decreases |actions|
  {
    hide Inv, Next, Enabled;
    if actions != [] {
      var u, a := Offered(s, t, actions[..|actions| - 1]), actions[|actions| - 1];
      OfferedAdvances(s, t, actions[..|actions| - 1]);
      if ByOther(a, t) && Enabled(u, a) { ActionAdvances(u, a); }
    }
  }

  lemma TurnAdvances(s: State, t: nat, turn: Turn)
    requires Inv(s)
    ensures Advances(s.ops, TurnTaken(s, t, turn).ops)
  {
    hide Inv, Next, Offered, Advances;
    var u := Offered(s, t, turn.others);
    OfferedAdvances(s, t, turn.others);
    if PcOf(u, t) != Idle && !Blocked(u, t) {
      CanStep(u, t, turn.io);
      ActionAdvances(u, Step(t, IoFor(u, t, turn.io)));
      AdvancesOn(s.ops, u.ops, TurnTaken(s, t, turn).ops);
    }
  }

  lemma {:induction false} DrivenAdvances(origin: State, t: nat, given: seq<Turn>, a: nat, n: nat)
    requires Inv(origin) && a <= n
    ensures Advances(Driven(origin, t, given, a).ops, Driven(origin, t, given, n).ops)
    decreases n
  {
    hide Inv, TurnTaken;
    if a < n {
      DrivenAdvances(origin, t, given, a, n - 1);
      TurnAdvances(Driven(origin, t, given, n - 1), t, TurnAt(given, n - 1));
      hide Advances;
      AdvancesOn(Driven(origin, t, given, a).ops, Driven(origin, t, given, n - 1).ops, Driven(origin, t, given, n).ops);
    }
  }

  // ----- what a thread leaves behind

  /** The operations a thread lets go of have been called back or had timed out. */
  ghost predicate LetGo(s: State, u: State, t: nat) {
    forall o: nat | o in Hand(PcOf(s, t)) && o !in Hand(PcOf(u, t)) ::
      o < |u.ops| && (u.ops[o].stage.Called? || u.ops[o].timeoutFlag)
  }

  lemma StepLetsGo(s: State, t: nat, io: Io)
    requires Inv(s) && Enabled(s, Step(t, io))
    ensures LetGo(s, NextStep(s, t, io), t)
  {
    HandNumbered(s, t);
    hide Inv, NextStep, Numbered, Enabled;
    match PcOf(s, t)
    case Publishing(cont, fin) => HandStays(s, t, io);
    case Looping(cont, fin) => LoopingLetsGo(s, t, io);
    case EndLoop(cont, rest) => EndLoopLetsGo(s, t, io);
    case Resuming(cont, fin) => ResumingLetsGo(s, t, io);
    case EndResuming(cont, rest) => ResumingLetsGo(s, t, io);
    case Flagging(cont, fin, ready) => HandStays(s, t, io);
    case Calling(cont, fin) => HandStays(s, t, io);
    case EndPublishing(cont, rest) => HandStays(s, t, io);
    case EndStopping(cont, rest) => HandStays(s, t, io);
    case _ =>
  }

  lemma HandStays(s: State, t: nat, io: Io)
    requires Numbered(s) && Enabled(s, Step(t, io))
    requires var pc := PcOf(s, t);
             pc.Publishing? || pc.Flagging? || pc.Calling? || pc.EndPublishing? || pc.EndStopping?
    ensures Hand(PcOf(NextStep(s, t, io), t)) == Hand(PcOf(s, t))
  {
    hide NextPublish, Enabled;
    var pc := PcOf(s, t);
    if pc.Publishing? {
      assert Hand(pc)[|Hand(pc)| - 1] < |s.ops|;
      PublishKeepsHand(s, t, pc.cont, pc.fin);
    }
  }

  lemma LoopingLetsGo(s: State, t: nat, io: Io)
    requires Numbered(s) && Enabled(s, Step(t, io)) && PcOf(s, t).Looping?
    ensures LetGo(s, NextStep(s, t, io), t)
  {
    hide NextIo, Numbered;
    var pc := PcOf(s, t);
    IoKeepsHand(s, t, pc.cont, pc.fin, io);
  }

  lemma EndLoopLetsGo(s: State, t: nat, io: Io)
    requires Numbered(s) && Enabled(s, Step(t, io)) && PcOf(s, t).EndLoop?
    requires Hand(PcOf(s, t)) != [] ==> Hand(PcOf(s, t))[0] < |s.ops|
    ensures LetGo(s, NextStep(s, t, io), t)
  {
    hide NextEnd, Numbered;
    EndLetsGo(s, t, PcOf(s, t).cont, PcOf(s, t).rest);
  }

  lemma ResumingLetsGo(s: State, t: nat, io: Io)
    requires Numbered(s) && Enabled(s, Step(t, io)) && (PcOf(s, t).Resuming? || PcOf(s, t).EndResuming?)
    requires Hand(PcOf(s, t)) != [] && Hand(PcOf(s, t))[0] < |s.ops|
    ensures LetGo(s, NextStep(s, t, io), t)
  {
    hide ResumeIo, Numbered;
    var pc := PcOf(s, t);
    if pc.Resuming? {
      ResumeLetsGo(s, t, pc.fin, Calling(pc.cont, pc.fin[1..]));
    } else {
      ResumeLetsGo(s, t, pc.rest, EndLoop(pc.cont, pc.rest[1..]));
    }
  }

  lemma ResumeLetsGo(s: State, t: nat, hand: seq<nat>, pc: Pc)
    requires hand != [] && hand[0] < |s.ops| && Hand(pc) == hand[1..]
    ensures var u := ResumeIo(s, t, hand[0], pc);
            forall o | o in hand && o !in Hand(PcOf(u, t)) :: o < |u.ops| && u.ops[o].stage.Called?
  {
    assert hand == [hand[0]] + hand[1..];
  }

  lemma HandNumbered(s: State, t: nat)
    requires Inv(s)
    ensures forall i | 0 <= i < |Hand(PcOf(s, t))| :: Hand(PcOf(s, t))[i] < |s.ops|
    ensures NeedsHand(PcOf(s, t)) ==> Hand(PcOf(s, t)) != []
  {
    hide Inv;
  }

  lemma PublishKeepsHand(s: State, t: nat, cont: Cont, fin: seq<nat>)
    requires fin != [] && fin[|fin| - 1] < |s.ops|
    ensures Hand(PcOf(NextPublish(s, t, cont, fin), t)) == fin
  {
  }

  lemma IoKeepsHand(s: State, t: nat, cont: Cont, fin: seq<nat>, io: Io)
    requires Numbered(s) && (s.queue != [] ==> IoAllowed(s, s.queue[0], io))
    ensures fin <= Hand(PcOf(NextIo(s, t, cont, fin, io), t))
  {
    hide Numbered;
  }

  lemma EndLetsGo(s: State, t: nat, cont: Cont, rest: seq<nat>)
    requires rest != [] ==> rest[0] < |s.ops|
    ensures var u := NextEnd(s, t, cont, rest);
            forall o | o in rest && o !in Hand(PcOf(u, t)) :: o < |u.ops| && u.ops[o].timeoutFlag
  {
    assert rest != [] ==> rest == [rest[0]] + rest[1..];
  }

  /** An operation once in the thread's hand and not there any more was called back or had timed out. */
  lemma {:induction false} HandIsServed(origin: State, t: nat, given: seq<Turn>, a: nat, n: nat, o: nat)
    requires Inv(origin) && a <= n && o in Hand(PcOf(Driven(origin, t, given, a), t))
    requires o !in Hand(PcOf(Driven(origin, t, given, n), t))
    ensures var u := Driven(origin, t, given, n); o < |u.ops| && (u.ops[o].stage.Called? || u.ops[o].timeoutFlag)
    decreases n
  {
    hide Inv, TurnTaken;
    if a < n {
      var s := Driven(origin, t, given, n - 1);
      if o in Hand(PcOf(s, t)) {
        TurnLetsGo(s, t, TurnAt(given, n - 1));
      } else {
        HandIsServed(origin, t, given, a, n - 1, o);
        TurnAdvances(s, t, TurnAt(given, n - 1));
      }
    }
  }

  lemma TurnLetsGo(s: State, t: nat, turn: Turn)
    requires Inv(s)
    ensures LetGo(s, TurnTaken(s, t, turn), t)
  {
    hide Inv, NextStep, Offered, Numbered;
    var u := Offered(s, t, turn.others);
    OfferedStaysAway(s, t, turn.others);
    if PcOf(u, t) != Idle && !Blocked(u, t) {
      CanStep(u, t, turn.io);
      StepLetsGo(u, t, IoFor(u, t, turn.io));
    }
  }

  /** Once a thread that was to end all operations has begun to, nothing submitted before is on a queue. */
  lemma {:induction false} EndingEmptiesQueues(origin: State, t: nat, given: seq<Turn>, a: nat, n: nat)
    requires Reachable(origin) && Inv(origin) && a <= n
    requires PcOf(Driven(origin, t, given, a), t).Ending? && !PcOf(Driven(origin, t, given, n), t).Ending?
    ensures var s, u := Driven(origin, t, given, a), Driven(origin, t, given, n);
            |s.ops| <= |u.ops| && forall o | 0 <= o < |s.ops| :: !u.ops[o].stage.Queued?
    decreases n
  {
    hide Inv, TurnTaken, Reachable;
    if a < n {
      var s := Driven(origin, t, given, n - 1);
      DrivenAdvances(origin, t, given, a, n - 1);
      TurnAdvances(s, t, TurnAt(given, n - 1));
      if PcOf(s, t).Ending? {
        DrivenReachable(origin, t, given, n - 1);
        TurnEmptiesQueues(s, t, TurnAt(given, n - 1));
      } else {
        EndingEmptiesQueues(origin, t, given, a, n - 1);
      }
    }
  }

  lemma TurnEmptiesQueues(s: State, t: nat, turn: Turn)
    requires Reachable(s) && Inv(s) && PcOf(s, t).Ending? && !PcOf(TurnTaken(s, t, turn), t).Ending?
    ensures var u := TurnTaken(s, t, turn); forall o | 0 <= o < |u.ops| :: !u.ops[o].stage.Queued?
  {
    hide Inv, Offered, Reachable, Numbered;
    OfferedStaysAway(s, t, turn.others);
    TurnReachable(s, t, turn);
    NothingQueued(TurnTaken(s, t, turn));
  }

  /** With both queues empty no operation is queued. */
  lemma NothingQueued(s: State)
    requires Reachable(s) && s.queue == [] && s.ready == []
    ensures forall o | 0 <= o < |s.ops| :: !s.ops[o].stage.Queued?
  {
    ReachableInv(s);
    assert Front(s) == |s.ops|;
  }

  /** What a call of the thread from turn `a` to turn `n` has done to the operations. */
  ghost predicate CallDone(origin: State, t: nat, given: seq<Turn>, a: nat, n: nat)
    requires Inv(origin)
  {
    var u := Driven(origin, t, given, n);
    && a <= n
    && Advances(Driven(origin, t, given, a).ops, u.ops)
    && (forall k: nat, o: nat | a <= k <= n && o in Hand(PcOf(Driven(origin, t, given, k), t))
                                && o !in Hand(PcOf(u, t)) ::
          o < |u.ops| && (u.ops[o].stage.Called? || u.ops[o].timeoutFlag))
    && (forall k: nat, o: nat | a <= k <= n && PcOf(Driven(origin, t, given, k), t).Ending? && !PcOf(u, t).Ending?
                                && o < |Driven(origin, t, given, k).ops| ::
          o < |u.ops| && !u.ops[o].stage.Queued?)
  }

  lemma CallIsDone(origin: State, t: nat, given: seq<Turn>, a: nat, n: nat)
    requires Reachable(origin) && Inv(origin) && a <= n
    ensures CallDone(origin, t, given, a, n)
  {
    hide Inv, Reachable, Driven, Advances;
    DrivenAdvances(origin, t, given, a, n);
    var u := Driven(origin, t, given, n);
    forall k: nat, o: nat | a <= k <= n && o in Hand(PcOf(Driven(origin, t, given, k), t)) && o !in Hand(PcOf(u, t))
      ensures o < |u.ops| && (u.ops[o].stage.Called? || u.ops[o].timeoutFlag)
    {
      HandIsServed(origin, t, given, k, n, o);
    }
    forall k: nat, o: nat | a <= k <= n && PcOf(Driven(origin, t, given, k), t).Ending? && !PcOf(u, t).Ending?
                            && o < |Driven(origin, t, given, k).ops|
      ensures o < |u.ops| && !u.ops[o].stage.Queued?
    {
      EndingEmptiesQueues(origin, t, given, k, n);
    }
  }
}
