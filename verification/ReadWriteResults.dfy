/** Which of a run's events an operation's result tells of. */
module ReadWriteResults {
  import opened Options
  import opened ReadWriteSpec
  import opened ReadWriteProof
  import opened ReadWriteRuns
  import opened ReadWriteWorld
  import opened ReadWriteEnds

  /** Some socket call for the operation failed in the first `n` steps of the run. */
  ghost predicate Failed(acts: seq<Action>, n: nat, o: nat)
    requires Legal(acts) && n <= |acts|
  {
    exists i | 0 <= i < n :: FailsFor(StateAt(acts, i), acts[i], o)
  }

  /** The thread has just finished the operation in DoOperate, and its result is still to be written. */
  predicate JustMoved(s: State, t: nat, o: nat) {
    var pc := PcOf(s, t);
    pc.Publishing? && pc.fin != [] && pc.fin[|pc.fin| - 1] == o
  }

  /** The same in EndAllOperate. */
  predicate JustEnded(s: State, t: nat, o: nat) {
    var pc := PcOf(s, t);
    pc.EndPublishing? && pc.rest != [] && pc.rest[0] == o
  }

  /** The operation's fields tell whether a socket call for it has failed. */
  ghost predicate Told(s: State, o: nat, failed: bool) {
    && o < |s.ops|
    && (failed ==> s.ops[o].finishFlag && s.ops[o].moved == [])
    && (s.ops[o].result == Fail ==> failed)
    && (s.ops[o].result == Disconnected ==> !failed && s.ops[o].finishFlag)
    && (forall t: nat :: JustMoved(s, t, o) ==> (failed <==> s.ops[o].moved == []))
    && (forall t: nat :: JustEnded(s, t, o) ==> !failed)
  }

  /** Nobody comes to one of those two places with operation `o`. */
  ghost predicate NobodyNew(s: State, u: State, o: nat) {
    forall t: nat :: (JustMoved(u, t, o) ==> JustMoved(s, t, o)) && (JustEnded(u, t, o) ==> JustEnded(s, t, o))
  }

  predicate SaysSame(a: Op, b: Op) {
    b.result == a.result && b.moved == a.moved && b.finishFlag == a.finishFlag
  }

  lemma ToldSame(s: State, u: State, o: nat, failed: bool)
    requires Told(s, o, failed) && o < |u.ops| && SaysSame(s.ops[o], u.ops[o]) && NobodyNew(s, u, o)
    ensures Told(u, o, failed)
  {
    hide JustMoved, JustEnded;
  }

  /** Only thread `t` has moved, and not to one of the two places. */
  lemma NobodyElse(s: State, u: State, t: nat, o: nat)
    requires OnlyThread(s, u, t) && !PcOf(u, t).Publishing? && !PcOf(u, t).EndPublishing?
    ensures NobodyNew(s, u, o)
  {
  }

  lemma SubmitTells(s: State, t: nat, need: nat, o: nat)
    requires Numbered(s)
    ensures Told(NextSubmit(s, t, need), |s.ops|, false)
    ensures o < |s.ops| ==> var u := NextSubmit(s, t, need); SaysSame(s.ops[o], u.ops[o]) && NobodyNew(s, u, o)
  {
    var u := NextSubmit(s, t, need);
    forall x: nat ensures !JustMoved(u, x, |s.ops|) && !JustEnded(u, x, |s.ops|) {
      HandIsNumbered(s, x);
      assert x != t ==> PcOf(u, x) == PcOf(s, x);
    }
  }

  lemma TransferTells(s: State, t: nat, cont: Cont, fin: seq<nat>, bytes: seq<Byte>, o: nat, failed: bool)
    requires PcOf(s, t) == Looping(cont, fin) && s.queue != [] && s.queue[0] < |s.ops| && Told(s, o, failed)
    requires !s.ops[s.queue[0]].finishFlag && forall x: nat :: s.queue[0] !in Hand(PcOf(s, x))
    ensures Told(Transfer(s, t, cont, fin, bytes), o, failed || (o == s.queue[0] && bytes == []))
  {
    var u := Transfer(s, t, cont, fin, bytes);
    forall x: nat ensures JustMoved(s, x, o) ==> s.queue[0] != o {}
    forall x: nat | x != t ensures PcOf(u, x) == PcOf(s, x) {}
    forall x: nat | JustEnded(u, x, o) ensures JustEnded(s, x, o) {}
    forall x: nat | JustMoved(u, x, o) ensures if o == s.queue[0] then x == t else JustMoved(s, x, o) {}
  }

  lemma FrontNotFinished(s: State)
    requires Inv(s) && s.queue != []
    ensures s.queue[0] < |s.ops| && !s.ops[s.queue[0]].finishFlag
  {
    FrontIsQueued(s);
    assert OpOk(s.ops[s.queue[0]]);
  }

  lemma IoTells(s: State, t: nat, cont: Cont, fin: seq<nat>, io: Io, o: nat, failed: bool)
    requires Inv(s) && PcOf(s, t) == Looping(cont, fin) && Enabled(s, Step(t, io)) && Told(s, o, failed)
    ensures Told(NextIo(s, t, cont, fin, io), o, failed || FailsFor(s, Step(t, io), o))
  {
    hide Inv, Told, Numbered, NobodyNew, OnlyThread, Transfer;
    var u := NextIo(s, t, cont, fin, io);
    if s.queue != [] && !s.ops[s.queue[0]].timeoutFlag && !io.WouldBlock? {
      FrontNotFinished(s);
      forall x: nat ensures s.queue[0] !in Hand(PcOf(s, x)) { FrontNotInHand(s, x); }
      TransferTells(s, t, cont, fin, if io.Bytes? then io.bytes else [], o, failed);
    } else {
      ToldNumber(s, o, failed);
      IoMovesOne(s, t, cont, fin, io);
      NobodyElse(s, u, t, o);
      ToldSame(s, u, o, failed);
    }
  }

  lemma ToldNumber(s: State, o: nat, failed: bool)
    requires Told(s, o, failed)
    ensures o < |s.ops|
  {
  }

  lemma IoMovesOne(s: State, t: nat, cont: Cont, fin: seq<nat>, io: Io)
    requires Numbered(s) && (s.queue != [] ==> IoAllowed(s, s.queue[0], io))
    ensures OnlyThread(s, NextIo(s, t, cont, fin, io), t)
  {
    hide Numbered;
  }

  lemma PublishTells(s: State, t: nat, cont: Cont, fin: seq<nat>, o: nat, failed: bool)
    requires PcOf(s, t) == Publishing(cont, fin) && fin != [] && fin[|fin| - 1] < |s.ops| && Told(s, o, failed)
    requires s.ops[fin[|fin| - 1]].finishFlag
    ensures Told(NextPublish(s, t, cont, fin), o, failed)
  {
    var u := NextPublish(s, t, cont, fin);
    assert JustMoved(s, t, fin[|fin| - 1]);
    assert OnlyThread(s, u, t);
    NobodyElse(s, u, t, o);
    forall x: nat | JustMoved(u, x, o) || JustEnded(u, x, o) ensures JustMoved(s, x, o) || JustEnded(s, x, o) {}
  }

  lemma EndTells(s: State, t: nat, cont: Cont, rest: seq<nat>, o: nat, failed: bool)
    requires PcOf(s, t) == EndLoop(cont, rest) && (rest != [] ==> rest[0] < |s.ops|) && Told(s, o, failed)
    requires rest != [] ==> !s.ops[rest[0]].finishFlag
    ensures Told(NextEnd(s, t, cont, rest), o, failed)
  {
    var u := NextEnd(s, t, cont, rest);
    forall x: nat ensures x != t ==> PcOf(u, x) == PcOf(s, x) {}
    forall x: nat | JustMoved(u, x, o) ensures JustMoved(s, x, o) {}
    forall x: nat | JustEnded(u, x, o) && x != t ensures JustEnded(s, x, o) {}
  }

  lemma EndPublishTells(s: State, t: nat, cont: Cont, rest: seq<nat>, o: nat, failed: bool)
    requires PcOf(s, t) == EndPublishing(cont, rest) && rest != [] && rest[0] < |s.ops| && Told(s, o, failed)
    requires s.ops[rest[0]].finishFlag
    ensures Told(At(s, t, EndStopping(cont, rest)).(ops := s.ops[rest[0] := s.ops[rest[0]].(result := Disconnected)]),
                 o, failed)
  {
    var u := At(s, t, EndStopping(cont, rest)).(ops := s.ops[rest[0] := s.ops[rest[0]].(result := Disconnected)]);
    assert JustEnded(s, t, rest[0]);
    forall x: nat ensures x != t ==> PcOf(u, x) == PcOf(s, x) {}
    forall x: nat | JustMoved(u, x, o) ensures JustMoved(s, x, o) {}
    forall x: nat | JustEnded(u, x, o) ensures JustEnded(s, x, o) {}
  }

  /** What the thread's position says about the first and the last operation in its hand. */
  lemma HandFlags(s: State, t: nat)
    requires Inv(s)
    ensures var pc, hand := PcOf(s, t), Hand(PcOf(s, t));
            && (NeedsHand(pc) ==> hand != [])
            && (hand != [] ==> hand[0] < |s.ops| && hand[|hand| - 1] < |s.ops|)
            && (hand != [] && pc.EndLoop? ==> !s.ops[hand[0]].finishFlag)
            && (hand != [] && pc.EndPublishing? ==> s.ops[hand[0]].finishFlag)
            && (hand != [] && pc.Publishing? ==> s.ops[hand[|hand| - 1]].finishFlag)
  {
    var pc, hand := PcOf(s, t), Hand(PcOf(s, t));
    assert HandOk(s.ops, t, pc);
    if hand != [] {
      assert Holds(s.ops, t, pc, 0) && Holds(s.ops, t, pc, |hand| - 1);
    }
  }

  /** The sections that write no result and finish nothing. */
  lemma QuietStepTells(s: State, t: nat, io: Io, o: nat)
    requires Numbered(s) && Enabled(s, Step(t, io)) && o < |s.ops|
    requires var pc := PcOf(s, t); !pc.Looping? && !pc.Publishing? && !pc.EndLoop? && !pc.EndPublishing?
    ensures var u := NextStep(s, t, io);
            o < |u.ops| && SaysSame(s.ops[o], u.ops[o]) && OnlyThread(s, u, t)
            && !PcOf(u, t).Publishing? && !PcOf(u, t).EndPublishing?
  {
    HandIsNumbered(s, t);
    var hand := Hand(PcOf(s, t));
    assert hand != [] ==> hand[0] < |s.ops|;
    hide Numbered, TakeAll, ResumeIo;
    match PcOf(s, t)
    case Ending(cont) => TakeSaysSame(s, t, cont, o);
    case Resuming(cont, fin) => ResumeSaysSame(s, t, fin[0], Calling(cont, fin[1..]), o);
    case EndResuming(cont, rest) => ResumeSaysSame(s, t, rest[0], EndLoop(cont, rest[1..]), o);
    case _ =>
  }

  lemma TakeSaysSame(s: State, t: nat, cont: Cont, o: nat)
    requires o < |s.ops|
    ensures var u := TakeAll(s, t, cont);
            o < |u.ops| && SaysSame(s.ops[o], u.ops[o]) && OnlyThread(s, u, t) && PcOf(u, t).EndLoop?
  {
  }

  lemma ResumeSaysSame(s: State, t: nat, resumed: nat, pc: Pc, o: nat)
    requires resumed < |s.ops| && o < |s.ops|
    ensures var u := ResumeIo(s, t, resumed, pc);
            o < |u.ops| && SaysSame(s.ops[o], u.ops[o]) && OnlyThread(s, u, t) && PcOf(u, t) == pc
  {
  }

  lemma StepTells(s: State, t: nat, io: Io, o: nat, failed: bool)
    requires Inv(s) && Enabled(s, Step(t, io)) && Told(s, o, failed)
    ensures Told(NextStep(s, t, io), o, failed || FailsFor(s, Step(t, io), o))
  {
    hide Inv, Told, Numbered, NobodyNew, OnlyThread, NextIo, NextPublish, NextEnd, TakeAll, ResumeIo, SaysSame;
    HandFlags(s, t);
    ToldNumber(s, o, failed);
    match PcOf(s, t)
    case Looping(cont, fin) => IoTells(s, t, cont, fin, io, o, failed);
    case Publishing(cont, fin) => PublishTells(s, t, cont, fin, o, failed);
    case EndLoop(cont, rest) => EndTells(s, t, cont, rest, o, failed);
    case EndPublishing(cont, rest) => EndPublishTells(s, t, cont, rest, o, failed);
    case _ =>
      QuietStepTells(s, t, io, o);
      NobodyElse(s, NextStep(s, t, io), t, o);
      ToldSame(s, NextStep(s, t, io), o, failed);
  }

  lemma ExpiringIsUnfinished(s: State, a: Action)
    requires Inv(s) && Enabled(s, a) && a.ExpiryName?
    ensures a.op < |s.ops| && !s.ops[a.op].finishFlag
  {
    assert OpOk(s.ops[a.op]);
  }

  lemma TimerMovesNobody(s: State, a: Action, o: nat)
    requires Numbered(s) && Enabled(s, a) && (a.Ring? || a.ExpiryName? || a.ExpiryResume?)
    ensures NobodyNew(s, Next(s, a), o)
  {
    hide Numbered;
    forall x: nat ensures PcOf(Next(s, a), x) == PcOf(s, x) {}
  }

  lemma TimerTells(s: State, a: Action, o: nat, failed: bool)
    requires Inv(s) && Enabled(s, a) && (a.Ring? || a.ExpiryName? || a.ExpiryResume?) && Told(s, o, failed)
    ensures Told(Next(s, a), o, failed)
  {
    hide Inv, Numbered, JustMoved, JustEnded;
    if a.ExpiryName? { ExpiringIsUnfinished(s, a); }
    TimerMovesNobody(s, a, o);
  }

  lemma ActionTells(s: State, a: Action, o: nat, failed: bool)
    requires Inv(s) && Enabled(s, a) && Told(s, o, failed)
    ensures Told(Next(s, a), o, failed || FailsFor(s, a, o))
  {
    hide Inv, Told, Numbered, NobodyNew, NextStep, NextSubmit, SaysSame, OnlyThread;
    ToldNumber(s, o, failed);
    match a
    case Step(t, io) => StepTells(s, t, io, o, failed);
    case Submit(t, need) =>
      SubmitTells(s, t, need, o);
      SubmitGrows(s, t, need);
      ToldSame(s, Next(s, a), o, failed);
    case Ring(_) => TimerTells(s, a, o, failed);
    case ExpiryName(_) => TimerTells(s, a, o, failed);
    case ExpiryResume(_) => TimerTells(s, a, o, failed);
    case _ =>
      CallTells(s, a, o);
      ToldSame(s, Next(s, a), o, failed);
  }

  lemma SubmitGrows(s: State, t: nat, need: nat)
    ensures |NextSubmit(s, t, need).ops| == |s.ops| + 1
  {
  }

  lemma CallTells(s: State, a: Action, o: nat)
    requires Numbered(s) && Enabled(s, a) && (a.Start? || a.OnOperate? || a.Stop?) && o < |s.ops|
    ensures var u := Next(s, a); u.ops == s.ops && SaysSame(s.ops[o], u.ops[o]) && NobodyNew(s, u, o)
  {
    hide Numbered;
    if !a.Start? { NobodyElse(s, Next(s, a), a.thread, o); }
  }

  lemma {:induction false} RunTells(acts: seq<Action>, n: nat, o: nat)
    requires Legal(acts) && n <= |acts| && o < |StateAt(acts, n).ops|
    ensures Told(StateAt(acts, n), o, Failed(acts, n, o))
    decreases n
  {
    hide Inv, Legal, Next, Enabled, StateAt, Reachable, Told, FailsFor, Numbered;
    if n == 0 {
      StartsEmpty(acts);
    } else {
      var s, a := StateAt(acts, n - 1), acts[n - 1];
      StateAfter(acts, n - 1);
      if o < |s.ops| {
        RunTells(acts, n - 1, o);
        ActionTells(s, a, o, Failed(acts, n - 1, o));
        assert Failed(acts, n, o) <==> Failed(acts, n - 1, o) || FailsFor(s, a, o);
      } else {
        NewOperation(s, a);
        SubmitTells(s, a.thread, a.need, o);
        NotYetThere(acts, n, o);
      }
    }
  }

  lemma StartsEmpty(acts: seq<Action>)
    requires Legal(acts)
    ensures |StateAt(acts, 0).ops| == 0
  {
    hide Inv, Legal;
    assert acts[..0] == [];
  }

  lemma NewOperation(s: State, a: Action)
    requires Numbered(s) && Enabled(s, a)
    ensures |Next(s, a).ops| > |s.ops| ==> a.Submit? && |Next(s, a).ops| == |s.ops| + 1
    ensures a.Submit? ==> Next(s, a) == NextSubmit(s, a.thread, a.need)
  {
    hide Numbered, NextSubmit, NextStep;
    if a.Step? {
      StepAddsNothing(s, a.thread, a.io);
    } else if a.Submit? {
      SubmitGrows(s, a.thread, a.need);
    }
  }

  lemma StepAddsNothing(s: State, t: nat, io: Io)
    requires Numbered(s) && Enabled(s, Step(t, io))
    ensures |NextStep(s, t, io).ops| == |s.ops|
  {
    HandIsNumbered(s, t);
    hide Numbered;
  }

  lemma {:induction false} NotYetThere(acts: seq<Action>, n: nat, o: nat)
    requires Legal(acts) && 0 < n <= |acts| && o >= |StateAt(acts, n - 1).ops|
    requires acts[n - 1].Submit?
    ensures !Failed(acts, n, o)
  {
    hide Inv, Legal, StateAt, Reachable;
    forall i | 0 <= i < n ensures !FailsFor(StateAt(acts, i), acts[i], o) {
      if i < n - 1 { OpsGrow(acts, i, n - 1); }
    }
  }

  /** A result says what happened: an operation that I/O finished reports a failure exactly if a socket call for it
      failed, a disconnection exactly if it was ended without one, and success exactly if it moved bytes. */
  lemma ResultMeansHistory(acts: seq<Action>, o: nat)
    requires Legal(acts) && o < |Run(acts).ops| && Run(acts).ops[o].stage.Called?
    ensures var op := Run(acts).ops[o];
            && (op.result == Fail <==> Failed(acts, |acts|, o))
            && (op.result == Disconnected <==> !Failed(acts, |acts|, o) && op.moved == [])
            && (op.result == Success <==> op.moved != [])
  {
    hide Legal, Reachable, StateAt, Failed, Run, JustMoved, JustEnded;
    WholeRun(acts);
    RunTells(acts, |acts|, o);
    assert OpOk(Run(acts).ops[o]);
  }
}
