/** In what order a thread deals with operations, what it has tried for those it found waiting, and what the
    operateable flag then tells. */
module ReadWriteOrder {
  import opened Options
  import opened ReadWriteSpec
  import opened ReadWriteProof
  import opened ReadWriteRuns
  import opened ReadWriteWorld

  // ----- callbacks come in the order of arrival

  /** Only the first operation in a thread's hand leaves it. */
  lemma OnlyFirstLeaves(s: State, t: nat, io: Io, o: nat)
    requires Inv(s) && Enabled(s, Step(t, io)) && o in Hand(PcOf(s, t))
    requires o !in Hand(PcOf(NextStep(s, t, io), t))
    ensures o == Hand(PcOf(s, t))[0]
  {
    HandNumbered(s, t);
    hide Inv, Numbered, Enabled, NextStep, Hand;
    var pc, hand := PcOf(s, t), Hand(PcOf(s, t));
    assert hand == [hand[0]] + hand[1..];
    HandAfter(s, t, io);
  }

  /** A step of a thread with operations in hand adds to the end of its hand, leaves it, or takes the first out. */
  lemma HandAfter(s: State, t: nat, io: Io)
    requires Numbered(s) && Enabled(s, Step(t, io)) && Hand(PcOf(s, t)) != []
    ensures var hand, next := Hand(PcOf(s, t)), Hand(PcOf(NextStep(s, t, io), t)); hand <= next || next == hand[1..]
  {
    HandIsThere(s, t);
    hide Numbered, Enabled, NextIo, NextPublish, NextEnd, TakeAll, ResumeIo;
    match PcOf(s, t)
    case Looping(cont, fin) => IoKeepsHand(s, t, cont, fin, io);
    case Publishing(cont, fin) => PublishKeepsHand(s, t, cont, fin);
    case EndLoop(cont, rest) => EndKeepsRest(s, t, cont, rest);
    case Resuming(cont, fin) => ResumeKeepsRest(s, t, fin[0], Calling(cont, fin[1..]));
    case EndResuming(cont, rest) => ResumeKeepsRest(s, t, rest[0], EndLoop(cont, rest[1..]));
    case Flagging(_, _, _) =>
    case Calling(_, _) =>
    case EndPublishing(_, _) =>
    case EndStopping(_, _) =>
  }

  lemma HandIsThere(s: State, t: nat)
    requires Numbered(s)
    ensures forall i | 0 <= i < |Hand(PcOf(s, t))| :: Hand(PcOf(s, t))[i] < |s.ops|
  {
  }

  lemma EndKeepsRest(s: State, t: nat, cont: Cont, rest: seq<nat>)
    requires rest != [] && rest[0] < |s.ops|
    ensures var hand := Hand(PcOf(NextEnd(s, t, cont, rest), t)); hand == rest || hand == rest[1..]
  {
  }

  lemma ResumeKeepsRest(s: State, t: nat, o: nat, pc: Pc)
    requires o < |s.ops|
    ensures PcOf(ResumeIo(s, t, o, pc), t) == pc
  {
  }

  lemma TurnFirstLeaves(s: State, t: nat, turn: Turn, o: nat)
    requires Inv(s) && o in Hand(PcOf(s, t)) && o !in Hand(PcOf(TurnTaken(s, t, turn), t))
    ensures o == Hand(PcOf(s, t))[0]
  {
    hide Inv, NextStep, Offered, Numbered, Hand;
    var u := Offered(s, t, turn.others);
    OfferedStaysAway(s, t, turn.others);
    if PcOf(u, t) != Idle && !Blocked(u, t) {
      CanStep(u, t, turn.io);
      OnlyFirstLeaves(u, t, IoFor(u, t, turn.io), o);
    }
  }

  lemma FirstIsLeast(s: State, t: nat, o: nat)
    requires Inv(s) && o in Hand(PcOf(s, t))
    ensures Hand(PcOf(s, t))[0] <= o
  {
    assert HandOk(s.ops, t, PcOf(s, t));
  }

  lemma {:induction false} LeftInOrder(origin: State, t: nat, given: seq<Turn>, a: nat, n: nat, first: nat, second: nat)
    requires Inv(origin) && a <= n && first < second
    requires first in Hand(PcOf(Driven(origin, t, given, a), t)) && second in Hand(PcOf(Driven(origin, t, given, a), t))
    requires second !in Hand(PcOf(Driven(origin, t, given, n), t))
    ensures var u := Driven(origin, t, given, n);
            first < |u.ops| && (u.ops[first].stage.Called? || u.ops[first].timeoutFlag)
    decreases n
  {
    hide Inv, TurnTaken, Hand;
    if a < n {
      var s := Driven(origin, t, given, n - 1);
      if second in Hand(PcOf(s, t)) {
        TurnFirstLeaves(s, t, TurnAt(given, n - 1), second);
        if first in Hand(PcOf(s, t)) { FirstIsLeast(s, t, first); }
        HandIsServed(origin, t, given, a, n - 1, first);
      } else {
        LeftInOrder(origin, t, given, a, n - 1, first, second);
      }
      TurnAdvances(s, t, TurnAt(given, n - 1));
    }
  }

  /** Of two operations a thread has in hand, the one that arrived first is called back first, unless it times out. */
  lemma CalledBackInArrivalOrder(origin: State, t: nat, given: seq<Turn>, a: nat, n: nat, first: nat, second: nat)
    requires Inv(origin) && a <= n && first < second
    requires first in Hand(PcOf(Driven(origin, t, given, a), t)) && second in Hand(PcOf(Driven(origin, t, given, a), t))
    requires var u := Driven(origin, t, given, n); second < |u.ops| && u.ops[second].stage.Called?
    ensures var u := Driven(origin, t, given, n);
            first < |u.ops| && (u.ops[first].stage.Called? || u.ops[first].timeoutFlag)
  {
    hide Inv, Driven;
    HeldIsInHand(Driven(origin, t, given, n), t);
    LeftInOrder(origin, t, given, a, n, first, second);
  }

  // ----- what DoOperate has tried

  lemma AttemptsGrow(s: State, a: Action)
    requires Numbered(s) && Enabled(s, a)
    ensures |s.attempts| <= |Next(s, a).attempts|
  {
    hide NextStep, Numbered;
    if a.Step? { StepAttempts(s, a.thread, a.io); }
  }

  lemma StepAttempts(s: State, t: nat, io: Io)
    requires Numbered(s) && Enabled(s, Step(t, io))
    ensures |s.attempts| <= |NextStep(s, t, io).attempts|
  {
    HandIsThere(s, t);
    NeededHand(s, t);
    var hand := Hand(PcOf(s, t));
    assert hand != [] ==> hand[0] < |s.ops| && hand[|hand| - 1] < |s.ops|;
    hide Numbered, NextIo, NextPublish, NextEnd, TakeAll, ResumeIo;
    match PcOf(s, t)
    case Looping(cont, fin) => IoAttempts(s, t, cont, fin, io);
    case Publishing(cont, fin) => PublishLeavesFlag(s, t, cont, fin);
    case Ending(cont) => TakeLeavesFlag(s, t, cont);
    case EndLoop(cont, rest) => EndLeavesFlag(s, t, cont, rest);
    case Resuming(cont, fin) => ResumeLeavesFlag(s, t, fin[0], Calling(cont, fin[1..]));
    case EndResuming(cont, rest) => ResumeLeavesFlag(s, t, rest[0], EndLoop(cont, rest[1..]));
    case _ =>
  }

  lemma IoAttempts(s: State, t: nat, cont: Cont, fin: seq<nat>, io: Io)
    requires Numbered(s) && (s.queue != [] ==> IoAllowed(s, s.queue[0], io))
    ensures |s.attempts| <= |NextIo(s, t, cont, fin, io).attempts|
  {
    hide Numbered;
  }

  lemma PublishLeavesFlag(s: State, t: nat, cont: Cont, fin: seq<nat>)
    requires fin != [] && fin[|fin| - 1] < |s.ops|
    ensures var u := NextPublish(s, t, cont, fin); u.attempts == s.attempts && u.operateable == s.operateable
  {
  }

  lemma TakeLeavesFlag(s: State, t: nat, cont: Cont)
    ensures var u := TakeAll(s, t, cont);
            u.attempts == s.attempts && u.operateable == s.operateable && PcOf(u, t).EndLoop?
  {
  }

  lemma EndLeavesFlag(s: State, t: nat, cont: Cont, rest: seq<nat>)
    requires rest != [] ==> rest[0] < |s.ops|
    ensures var u := NextEnd(s, t, cont, rest);
            && u.attempts == s.attempts && u.operateable == s.operateable
            && (PcOf(u, t) == After(cont) || PcOf(u, t).EndLoop? || PcOf(u, t).EndPublishing?)
  {
  }

  lemma ResumeLeavesFlag(s: State, t: nat, o: nat, pc: Pc)
    requires o < |s.ops|
    ensures var u := ResumeIo(s, t, o, pc);
            u.attempts == s.attempts && u.operateable == s.operateable && PcOf(u, t) == pc
  {
  }

  /** Either there have been more than `tries` socket calls, or none of the first `m` operations is still waiting
      where the thread would not find it. */
  ghost predicate Tries(s: State, t: nat, tries: nat, m: nat) {
    && m <= |s.ops|
    && match PcOf(s, t)
       case Checking(_) => false
       case Entering(_) => true
       case Locking(_) => true
       case Looping(_, _) => |s.attempts| > tries || forall o | 0 <= o < m && s.ops[o].stage.Queued? :: o in s.queue
       case _ => |s.attempts| > tries || forall o | 0 <= o < m :: !s.ops[o].stage.Queued?
  }

  lemma KeptTries(s: State, u: State, t: nat, tries: nat, m: nat)
    requires Tries(s, t, tries, m) && PcOf(u, t) == PcOf(s, t)
    requires Advances(s.ops, u.ops) && |s.attempts| <= |u.attempts| && (PcOf(s, t).Looping? ==> u.queue == s.queue)
    ensures Tries(u, t, tries, m)
  {
  }

  lemma OthersLeaveTries(s: State, a: Action, t: nat, tries: nat, m: nat)
    requires Inv(s) && Enabled(s, a) && ByOther(a, t) && Tries(s, t, tries, m)
    ensures Tries(Next(s, a), t, tries, m)
  {
    hide Inv, Next, Enabled, Numbered, Tries, Advances, SameTransfers;
    LockParts(s);
    OthersStayAway(s, a, t);
    ActionAdvances(s, a);
    AttemptsGrow(s, a);
    KeptTries(s, Next(s, a), t, tries, m);
  }

  /** Whatever is queued is on one of the two queues. */
  lemma QueuedIsListed(s: State, o: nat)
    requires Inv(s) && o < |s.ops| && s.ops[o].stage.Queued?
    ensures o in s.queue + s.ready
  {
    assert (s.queue + s.ready)[o - Front(s)] == o;
  }

  lemma LockTries(s: State, t: nat, cont: Cont, tries: nat, m: nat)
    requires Inv(s) && m <= |s.ops|
    ensures Tries(At(s, t, Looping(cont, [])).(holder := Some(t), queue := s.queue + s.ready, ready := []), t, tries, m)
  {
    hide Inv;
    forall o | 0 <= o < m && s.ops[o].stage.Queued? ensures o in s.queue + s.ready { QueuedIsListed(s, o); }
  }

  lemma IoTries(s: State, t: nat, cont: Cont, fin: seq<nat>, io: Io, tries: nat, m: nat)
    requires Numbered(s) && PcOf(s, t) == Looping(cont, fin) && (s.queue != [] ==> IoAllowed(s, s.queue[0], io))
    requires Tries(s, t, tries, m) && tries <= |s.attempts|
    ensures Tries(NextIo(s, t, cont, fin, io), t, tries, m)
  {
    hide Numbered;
    assert s.queue != [] ==> s.queue == [s.queue[0]] + s.queue[1..];
  }

  lemma LaterTries(s: State, u: State, t: nat, tries: nat, m: nat)
    requires Tries(s, t, tries, m) && Advances(s.ops, u.ops) && |s.attempts| <= |u.attempts|
    requires var pc := PcOf(s, t); !pc.Entering? && !pc.Locking? && !pc.Looping?
    requires var pc := PcOf(u, t); !pc.Checking? && !pc.Entering? && !pc.Locking?
    ensures Tries(u, t, tries, m)
  {
  }

  lemma OwnStepTries(s: State, t: nat, io: Io, tries: nat, m: nat)
    requires Inv(s) && Enabled(s, Step(t, io)) && Tries(s, t, tries, m) && tries <= |s.attempts|
    ensures Tries(NextStep(s, t, io), t, tries, m)
  {
    hide Inv, Numbered, Advances, NextIo, NextPublish, NextEnd, TakeAll, ResumeIo, Tries;
    ActionAdvances(s, Step(t, io));
    AttemptsGrow(s, Step(t, io));
    WhereNext(s, t, io);
    TriesParts(s, t, tries, m);
    var u := NextStep(s, t, io);
    match PcOf(s, t)
    case Entering(cont) => AnywayTries(u, t, tries, m);
    case Locking(cont) => LockTries(s, t, cont, tries, m);
    case Looping(cont, fin) => IoTries(s, t, cont, fin, io, tries, m);
    case _ => LaterTries(s, u, t, tries, m);
  }

  lemma TriesParts(s: State, t: nat, tries: nat, m: nat)
    requires Tries(s, t, tries, m)
    ensures m <= |s.ops| && !PcOf(s, t).Checking?
  {
  }

  lemma AnywayTries(s: State, t: nat, tries: nat, m: nat)
    requires m <= |s.ops| && (PcOf(s, t).Entering? || PcOf(s, t).Locking?)
    ensures Tries(s, t, tries, m)
  {
  }

  /** Which way through DoOperate a thread goes. */
  lemma WhereNext(s: State, t: nat, io: Io)
    requires Numbered(s) && Enabled(s, Step(t, io))
    ensures var pc, next := PcOf(s, t), PcOf(NextStep(s, t, io), t);
            && (pc.Entering? ==> next.Locking? && |NextStep(s, t, io).ops| == |s.ops|)
            && (!pc.Checking? && !pc.Entering? ==> !next.Checking? && !next.Entering? && !next.Locking?)
  {
    HandIsThere(s, t);
    NeededHand(s, t);
    var hand := Hand(PcOf(s, t));
    assert hand != [] ==> hand[0] < |s.ops| && hand[|hand| - 1] < |s.ops|;
    hide Numbered, NextIo, NextPublish, NextEnd, TakeAll, ResumeIo;
    match PcOf(s, t)
    case Looping(cont, fin) => IoGoesOn(s, t, cont, fin, io);
    case Publishing(cont, fin) => PublishGoesOn(s, t, cont, fin);
    case Ending(cont) => TakeGoesOn(s, t, cont);
    case EndLoop(cont, rest) => EndGoesOn(s, t, cont, rest);
    case Resuming(cont, fin) => ResumeKeepsRest(s, t, fin[0], Calling(cont, fin[1..]));
    case EndResuming(cont, rest) => ResumeKeepsRest(s, t, rest[0], EndLoop(cont, rest[1..]));
    case _ =>
  }

  lemma NeededHand(s: State, t: nat)
    requires Numbered(s)
    ensures NeedsHand(PcOf(s, t)) ==> Hand(PcOf(s, t)) != []
  {
  }

  lemma IoGoesOn(s: State, t: nat, cont: Cont, fin: seq<nat>, io: Io)
    requires Numbered(s) && (s.queue != [] ==> IoAllowed(s, s.queue[0], io))
    ensures var next := PcOf(NextIo(s, t, cont, fin, io), t); next.Looping? || next.Publishing? || next.Flagging?
  {
    hide Numbered;
  }

  lemma PublishGoesOn(s: State, t: nat, cont: Cont, fin: seq<nat>)
    requires fin != [] && fin[|fin| - 1] < |s.ops|
    ensures var next := PcOf(NextPublish(s, t, cont, fin), t); next.Looping? || next.Flagging?
  {
  }

  lemma TakeGoesOn(s: State, t: nat, cont: Cont)
    ensures PcOf(TakeAll(s, t, cont), t).EndLoop?
  {
  }

  lemma EndGoesOn(s: State, t: nat, cont: Cont, rest: seq<nat>)
    requires rest != [] ==> rest[0] < |s.ops|
    ensures var next := PcOf(NextEnd(s, t, cont, rest), t);
            next == After(cont) || next.EndLoop? || next.EndPublishing?
  {
  }

  lemma {:induction false} OfferedTries(s: State, t: nat, actions: seq<Action>, tries: nat, m: nat)
    requires Inv(s) && Tries(s, t, tries, m) && tries <= |s.attempts|
    ensures Tries(Offered(s, t, actions), t, tries, m) && tries <= |Offered(s, t, actions).attempts|
    decreases |actions|
  {
    hide Inv, Next, Enabled, Tries;
    if actions != [] {
      var u, a := Offered(s, t, actions[..|actions| - 1]), actions[|actions| - 1];
      OfferedTries(s, t, actions[..|actions| - 1], tries, m);
      if ByOther(a, t) && Enabled(u, a) {
        OthersLeaveTries(u, a, t, tries, m);
        AttemptsGrow(u, a);
      }
    }
  }

  lemma TurnTries(s: State, t: nat, turn: Turn, tries: nat, m: nat)
    requires Inv(s) && Tries(s, t, tries, m) && tries <= |s.attempts|
    ensures Tries(TurnTaken(s, t, turn), t, tries, m) && tries <= |TurnTaken(s, t, turn).attempts|
  {
    hide Inv, NextStep, Offered, Tries, Enabled, Numbered;
    var u := Offered(s, t, turn.others);
    OfferedTries(s, t, turn.others, tries, m);
    if PcOf(u, t) != Idle && !Blocked(u, t) {
      CanStep(u, t, turn.io);
      OwnStepTries(u, t, IoFor(u, t, turn.io), tries, m);
      AttemptsGrow(u, Step(t, IoFor(u, t, turn.io)));
    }
  }

  lemma {:induction false} DrivenTries(origin: State, t: nat, given: seq<Turn>, a: nat, n: nat)
    requires Inv(origin) && a <= n && PcOf(Driven(origin, t, given, a), t).Entering?
    ensures var s, u := Driven(origin, t, given, a), Driven(origin, t, given, n);
            Tries(u, t, |s.attempts|, |s.ops|) && |s.attempts| <= |u.attempts|
    decreases n
  {
    hide Inv, TurnTaken, Tries;
    var s := Driven(origin, t, given, a);
    if a < n {
      DrivenTries(origin, t, given, a, n - 1);
      TurnTries(Driven(origin, t, given, n - 1), t, TurnAt(given, n - 1), |s.attempts|, |s.ops|);
    } else {
      AnywayTries(s, t, |s.attempts|, |s.ops|);
    }
  }

  /** A call of DoOperate that is done has either tried a socket call or found nothing left to try one for: some call
      was made since, or nothing that had been submitted when it began is waiting any more. */
  ghost predicate Tried(origin: State, t: nat, given: seq<Turn>, a: nat, n: nat)
    requires Inv(origin)
  {
    var s, u := Driven(origin, t, given, a), Driven(origin, t, given, n);
    |s.attempts| < |u.attempts| || forall o: nat | o < |s.ops| :: o < |u.ops| && !u.ops[o].stage.Queued?
  }

  lemma CallTries(origin: State, t: nat, given: seq<Turn>, a: nat, n: nat)
    requires Inv(origin) && a <= n && PcOf(Driven(origin, t, given, a), t).Entering?
    requires var pc := PcOf(Driven(origin, t, given, n), t); pc == Idle || pc.Arming?
    ensures Tried(origin, t, given, a, n)
  {
    hide Inv, Driven;
    DrivenTries(origin, t, given, a, n);
  }

  // ----- what the flag tells

  /** All of these operations got what they asked for. */
  predicate AllFull(ops: seq<Op>, fin: seq<nat>) {
    forall i | 0 <= i < |fin| :: fin[i] < |ops| && Full(ops[fin[i]])
  }

  predicate Full(op: Op) {
    op.moved != [] && |op.moved| == op.need
  }

  /** Nobody else does anything in turns `a` to `n`. */
  ghost predicate Alone(given: seq<Turn>, a: nat, n: nat) {
    forall k: nat | a <= k < n :: TurnAt(given, k).others == []
  }

  /** The flag is off from the beginning of a call of DoOperate until the call has found out what to set it to. */
  predicate FlagWaits(s: State, t: nat) {
    match PcOf(s, t)
    case Checking(_) => false
    case Entering(_) => true
    case Locking(_) => !s.operateable
    case Looping(_, fin) => !s.operateable && AllFull(s.ops, fin)
    case Publishing(_, fin) => !s.operateable && fin != [] && AllFull(s.ops, fin[..|fin| - 1])
    case Flagging(_, fin, ready) => !s.operateable && (ready <==> s.queue == [] && AllFull(s.ops, fin))
    case _ => true
  }

  predicate InLoop(pc: Pc) {
    pc.Entering? || pc.Locking? || pc.Looping? || pc.Publishing?
  }

  lemma LoopKeepsFlag(s: State, t: nat, io: Io)
    requires Inv(s) && Enabled(s, Step(t, io)) && FlagWaits(s, t) && InLoop(PcOf(s, t))
    ensures var u := NextStep(s, t, io); FlagWaits(u, t) && (InLoop(PcOf(u, t)) || PcOf(u, t).Flagging?)
  {
    hide Inv, Numbered, NextIo, NextPublish, FlagWaits;
    HandFacts(s, t);
    match PcOf(s, t)
    case Entering(cont) => EnteringFlag(s, t, cont);
    case Locking(cont) => LockingFlag(s, t, cont);
    case Looping(cont, fin) => IoFlag(s, t, cont, fin, io);
    case Publishing(cont, fin) => PublishFlag(s, t, cont, fin);
  }

  lemma EnteringFlag(s: State, t: nat, cont: Cont)
    ensures FlagWaits(At(s, t, Locking(cont)).(operateable := false), t)
  {
  }

  lemma LockingFlag(s: State, t: nat, cont: Cont)
    requires PcOf(s, t).Locking? && FlagWaits(s, t)
    ensures FlagWaits(At(s, t, Looping(cont, [])).(holder := Some(t), queue := s.queue + s.ready, ready := []), t)
  {
  }

  lemma HandFacts(s: State, t: nat)
    requires Inv(s)
    ensures NeedsHand(PcOf(s, t)) ==> Hand(PcOf(s, t)) != []
    ensures forall i | 0 <= i < |Hand(PcOf(s, t))| ::
              Hand(PcOf(s, t))[i] < |s.ops| && |s.ops[Hand(PcOf(s, t))[i]].moved| <= s.ops[Hand(PcOf(s, t))[i]].need
    ensures s.queue != [] ==> s.queue[0] < |s.ops| && s.queue[0] !in Hand(PcOf(s, t))
    ensures Increasing(Hand(PcOf(s, t)))
  {
    HandNumbered(s, t);
    if s.queue != [] {
      FrontIsQueued(s);
      FrontNotInHand(s, t);
    }
    assert HandOk(s.ops, t, PcOf(s, t));
    forall i | 0 <= i < |Hand(PcOf(s, t))|
      ensures |s.ops[Hand(PcOf(s, t))[i]].moved| <= s.ops[Hand(PcOf(s, t))[i]].need
    {
      assert OpOk(s.ops[Hand(PcOf(s, t))[i]]);
    }
  }

  lemma IoFlag(s: State, t: nat, cont: Cont, fin: seq<nat>, io: Io)
    requires Numbered(s) && (s.queue != [] ==> IoAllowed(s, s.queue[0], io) && s.queue[0] !in fin)
    requires PcOf(s, t) == Looping(cont, fin) && FlagWaits(s, t)
    ensures var u := NextIo(s, t, cont, fin, io); FlagWaits(u, t) && (InLoop(PcOf(u, t)) || PcOf(u, t).Flagging?)
  {
    hide Numbered;
    if s.queue != [] { assert (fin + [s.queue[0]])[..|fin|] == fin; }
    forall i | 0 <= i < |fin| ensures fin[i] in fin {}
  }

  lemma PublishFlag(s: State, t: nat, cont: Cont, fin: seq<nat>)
    requires PcOf(s, t) == Publishing(cont, fin) && FlagWaits(s, t) && Increasing(fin)
    requires forall i | 0 <= i < |fin| :: fin[i] < |s.ops| && |s.ops[fin[i]].moved| <= s.ops[fin[i]].need
    ensures fin != [] && fin[|fin| - 1] < |s.ops|
    ensures var u := NextPublish(s, t, cont, fin); FlagWaits(u, t) && (InLoop(PcOf(u, t)) || PcOf(u, t).Flagging?)
  {
    var last := fin[|fin| - 1];
    var u := NextPublish(s, t, cont, fin);
    assert fin == fin[..|fin| - 1] + [last];
    forall i | 0 <= i < |fin| ensures Full(u.ops[fin[i]]) <==> Full(s.ops[fin[i]]) {}
    assert AllFull(s.ops, fin) <==> Full(s.ops[last]) by {
      forall i | 0 <= i < |fin| - 1 ensures fin[i] < |s.ops| && Full(s.ops[fin[i]]) {
        assert fin[..|fin| - 1][i] == fin[i];
      }
    }
  }

  /** After the loop only the flag's own section touches the flag. */
  lemma LaterKeepsFlag(s: State, t: nat, io: Io)
    requires Numbered(s) && Enabled(s, Step(t, io)) && !InLoop(PcOf(s, t)) && !PcOf(s, t).Checking?
    ensures var u, pc := NextStep(s, t, io), PcOf(s, t);
            && !InLoop(PcOf(u, t)) && !PcOf(u, t).Flagging? && !PcOf(u, t).Checking?
            && u.operateable == (s.operateable || (pc.Flagging? && pc.ready))
  {
    HandIsThere(s, t);
    NeededHand(s, t);
    var hand := Hand(PcOf(s, t));
    assert hand != [] ==> hand[0] < |s.ops|;
    hide Numbered, NextEnd, TakeAll, ResumeIo;
    match PcOf(s, t)
    case Ending(cont) => TakeLeavesFlag(s, t, cont);
    case EndLoop(cont, rest) => EndLeavesFlag(s, t, cont, rest);
    case Resuming(cont, fin) => ResumeLeavesFlag(s, t, fin[0], Calling(cont, fin[1..]));
    case EndResuming(cont, rest) => ResumeLeavesFlag(s, t, rest[0], EndLoop(cont, rest[1..]));
    case _ =>
  }

  lemma TurnAlone(s: State, t: nat, turn: Turn)
    requires Inv(s) && turn.others == []
    ensures TurnTaken(s, t, turn)
            == if PcOf(s, t) == Idle || Blocked(s, t) then s else Next(s, Step(t, IoFor(s, t, turn.io)))
    ensures PcOf(s, t) != Idle && !Blocked(s, t) ==> Enabled(s, Step(t, IoFor(s, t, turn.io)))
  {
    hide Inv, Next, Numbered;
    OfferedNone(s, t);
    if PcOf(s, t) != Idle && !Blocked(s, t) { CanStep(s, t, turn.io); }
  }

  lemma {:induction false} DrivenFlagWaits(origin: State, t: nat, given: seq<Turn>, a: nat, n: nat)
    requires Inv(origin) && a <= n && Alone(given, a, n) && PcOf(Driven(origin, t, given, a), t).Entering?
    ensures FlagWaits(Driven(origin, t, given, n), t)
    decreases n
  {
    hide Inv, TurnTaken, NextStep, FlagWaits, Numbered, Enabled;
    if a < n {
      var s, turn := Driven(origin, t, given, n - 1), TurnAt(given, n - 1);
      DrivenFlagWaits(origin, t, given, a, n - 1);
      TurnAlone(s, t, turn);
      NotChecking(s, t);
      if PcOf(s, t) != Idle && !Blocked(s, t) {
        if InLoop(PcOf(s, t)) {
          LoopKeepsFlag(s, t, IoFor(s, t, turn.io));
        } else {
          LaterKeepsFlag(s, t, IoFor(s, t, turn.io));
          PastTheLoop(NextStep(s, t, IoFor(s, t, turn.io)), t);
        }
      }
    } else {
      AtTheDoor(Driven(origin, t, given, a), t);
    }
  }

  lemma NotChecking(s: State, t: nat)
    requires FlagWaits(s, t)
    ensures !PcOf(s, t).Checking?
    ensures PcOf(s, t).Flagging? ==>
              !s.operateable && (PcOf(s, t).ready <==> s.queue == [] && AllFull(s.ops, Hand(PcOf(s, t))))
  {
  }

  lemma PastTheLoop(s: State, t: nat)
    requires !InLoop(PcOf(s, t)) && !PcOf(s, t).Flagging? && !PcOf(s, t).Checking?
    ensures FlagWaits(s, t)
  {
  }

  lemma AtTheDoor(s: State, t: nat)
    requires PcOf(s, t).Entering?
    ensures FlagWaits(s, t)
  {
  }

  /** The flag says whether the call's loop left nothing behind: the queue was empty and every operation it had finished
      got all it asked for. */
  ghost predicate FlagTells(origin: State, t: nat, given: seq<Turn>, a: nat, n: nat)
    requires Inv(origin)
  {
    exists k: nat | a < k < n ::
      && PcOf(Driven(origin, t, given, k), t).Flagging?
      && var s := Driven(origin, t, given, k);
         Driven(origin, t, given, n).operateable <==> s.queue == [] && AllFull(s.ops, Hand(PcOf(s, t)))
  }

  lemma {:induction false} CallSetsFlag(origin: State, t: nat, given: seq<Turn>, a: nat, n: nat)
    requires Inv(origin) && a <= n && Alone(given, a, n) && PcOf(Driven(origin, t, given, a), t).Entering?
    requires var pc := PcOf(Driven(origin, t, given, n), t); !InLoop(pc) && !pc.Flagging?
    ensures FlagTells(origin, t, given, a, n)
    decreases n
  {
    hide Inv, TurnTaken, NextStep, FlagWaits, Numbered, Enabled, AllFull, Blocked;
    if a < n {
      var s, turn := Driven(origin, t, given, n - 1), TurnAt(given, n - 1);
      DrivenFlagWaits(origin, t, given, a, n - 1);
      NotChecking(s, t);
      TurnAlone(s, t, turn);
      if PcOf(s, t) != Idle && !Blocked(s, t) {
        if InLoop(PcOf(s, t)) {
          LoopKeepsFlag(s, t, IoFor(s, t, turn.io));
        } else {
          LaterKeepsFlag(s, t, IoFor(s, t, turn.io));
        }
      }
      if PcOf(s, t).Flagging? {
        assert a < n - 1;
        NotBlocked(s, t);
      } else {
        CallSetsFlag(origin, t, given, a, n - 1);
      }
    }
  }

  lemma NotBlocked(s: State, t: nat)
    requires PcOf(s, t).Flagging?
    ensures !Blocked(s, t)
  {
  }

  /** From a socket event until a thread begins to serve it, whoever submits an operation serves the queue, too. */
  lemma EventOpensDoor(s: State, t: nat, x: nat, need: nat, io: Io)
    requires Inv(s) && PcOf(s, t) == Idle && PcOf(s, x) == Idle && x != t
    ensures Inv(Next(s, OnOperate(t))) && Enabled(Next(s, OnOperate(t)), Submit(x, need))
    ensures var u := Next(Next(s, OnOperate(t)), Submit(x, need));
            && Inv(u) && u.ops[|s.ops|].need == need && Enabled(u, Step(x, io))
            && PcOf(Next(u, Step(x, io)), x) == Entering(Arm(|s.ops|))
  {
    hide Inv, Numbered;
    var v := Next(s, OnOperate(t));
    NextKeepsInv(s, OnOperate(t));
    NextKeepsInv(v, Submit(x, need));
  }

  // ----- with others about, the flag may miss an operation

  lemma Follow(s: State, a: Action, u: State)
    requires Reachable(s) && Inv(s) && Enabled(s, a) && Next(s, a) == u
    ensures Reachable(u) && Inv(u)
  {
    hide Inv, Reachable, Numbered, Enabled, Next;
    ReachableNext(s, a);
  }

  /** The loop of thread 1 has found nothing to do and set the mutex free; its flag is still to be set. */
  const FOUND_NOTHING: State := Init.(run := true, threads := map[1 := Flagging(Back, [], true)])

  /** In between, thread 2 has submitted an operation and found the flag off. */
  const SUBMITTED: State :=
    FOUND_NOTHING.(ready := [0], ops := [Op(4, 2, false, false, Pending, [], Queued, Armed, NotExpired, 0)],
                   threads := map[1 := Flagging(Back, [], true), 2 := Idle])

  lemma FindsNothing()
    ensures Reachable(FOUND_NOTHING) && Inv(FOUND_NOTHING)
  {
    hide Inv, Reachable, Numbered;
    ReachableInit();
    ReachableInv(Init);
    var s1 := Init.(run := true);
    var s2 := s1.(operateable := true, threads := map[1 := Entering(Back)]);
    var s3 := s1.(threads := map[1 := Locking(Back)]);
    var s4 := s1.(threads := map[1 := Looping(Back, [])], holder := Some(1));
    assert s1.threads == map[];
    Follow(Init, Start, s1);
    Follow(s1, OnOperate(1), s2);
    Follow(s2, Step(1, WouldBlock), s3);
    Follow(s3, Step(1, WouldBlock), s4);
    Follow(s4, Step(1, WouldBlock), FOUND_NOTHING);
  }

  lemma Submits()
    requires Reachable(FOUND_NOTHING) && Inv(FOUND_NOTHING)
    ensures Reachable(SUBMITTED) && Inv(SUBMITTED)
  {
    hide Inv, Reachable, Numbered;
    var op := Op(4, 2, false, false, Pending, [], Queued, Unarmed, NotExpired, 0);
    var s6 := FOUND_NOTHING.(ready := [0], ops := [op], threads := FOUND_NOTHING.threads[2 := Checking(0)]);
    var s7 := s6.(threads := FOUND_NOTHING.threads[2 := Arming(0)]);
    Follow(FOUND_NOTHING, Submit(2, 4), s6);
    Follow(s6, Step(2, WouldBlock), s7);
    assert [op][0 := op.(alarm := Armed)] == SUBMITTED.ops;
    assert s7.threads[2 := Idle] == SUBMITTED.threads;
    Follow(s7, Step(2, WouldBlock), SUBMITTED);
  }

  /** An operation submitted between the end of a loop and the setting of its flag is left waiting: everything is quiet,
      the helper runs, the flag says that nothing waits, and nobody has tried the operation. */
  lemma FlagMayMissOperation() returns (u: State)
    ensures Reachable(u) && Quiet(u) && u.run && u.operateable
    ensures |u.ops| == 1 && u.ops[0].stage.Queued? && u.attempts == []
  {
    hide Inv, Reachable, Numbered;
    FindsNothing();
    Submits();
    var s9 := SUBMITTED.(operateable := true, threads := map[1 := Calling(Back, []), 2 := Idle]);
    u := s9.(threads := map[1 := Idle, 2 := Idle]);
    assert SUBMITTED.threads[1 := Calling(Back, [])] == s9.threads && s9.threads[1 := Idle] == u.threads;
    Follow(SUBMITTED, Step(1, WouldBlock), s9);
    Follow(s9, Step(1, WouldBlock), u);
  }
}
