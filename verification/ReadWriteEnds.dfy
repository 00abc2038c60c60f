/** What becomes of waiting operations once the helper has been stopped or a read or write has failed. */
module ReadWriteEnds {
  import opened Options
  import opened ReadWriteSpec
  import opened ReadWriteProof
  import opened ReadWriteRuns
  import opened ReadWriteWorld

  /** The socket call of this step is made for operation `o` and fails. */
  predicate FailsFor(s: State, a: Action, o: nat) {
    && a.Step? && a.io.Error? && PcOf(s, a.thread).Looping?
    && s.queue != [] && s.queue[0] == o < |s.ops| && !s.ops[o].timeoutFlag
  }

  /** The thread is in DoOperate with the run flag off, or has had a failure in it, or is about to end everything. */
  predicate MustEnd(s: State, t: nat) {
    match PcOf(s, t)
    case Entering(_) => !s.run
    case Locking(_) => !s.run
    case Looping(_, _) => !s.run
    case Publishing(_, fin) =>
      !s.run || (fin != [] && fin[|fin| - 1] < |s.ops| && s.ops[fin[|fin| - 1]].moved == [])
    case Flagging(_, _, _) => !s.run
    case Calling(_, _) => !s.run
    case Resuming(_, _) => !s.run
    case Ending(_) => true
    case _ => false
  }

  lemma FailureMustEnd(s: State, a: Action, o: nat)
    requires Inv(s) && Enabled(s, a) && FailsFor(s, a, o)
    ensures MustEnd(Next(s, a), a.thread)
  {
    hide Inv, Numbered;
  }

  // ----- steps

  lemma RunStaysOff(s: State, a: Action)
    requires Numbered(s) && Enabled(s, a) && !s.run && a != Start
    ensures !Next(s, a).run
  {
    hide Numbered;
  }

  lemma OwnStepEnds(s: State, t: nat, io: Io)
    requires Numbered(s) && Enabled(s, Step(t, io)) && MustEnd(s, t)
    ensures var u := NextStep(s, t, io);
            MustEnd(u, t) || (PcOf(s, t).Ending? && u.queue == [] && u.ready == [])
  {
    hide NextIo, NextPublish, TakeAll, ResumeIo, Numbered;
    var pc := PcOf(s, t);
    var hand := Hand(pc);
    HandIsNumbered(s, t);
    match pc
    case Looping(cont, fin) => IoEnds(s, t, cont, fin, io);
    case Publishing(cont, fin) => PublishEnds(s, t, cont, fin);
    case Resuming(cont, fin) => ResumeEnds(s, t, fin[0], Calling(cont, fin[1..]));
    case Ending(cont) => TakeEnds(s, t, cont);
    case _ =>
  }

  lemma HandIsNumbered(s: State, t: nat)
    requires Numbered(s)
    ensures forall i | 0 <= i < |Hand(PcOf(s, t))| :: Hand(PcOf(s, t))[i] < |s.ops|
    ensures NeedsHand(PcOf(s, t)) ==> Hand(PcOf(s, t)) != []
  {
  }

  lemma IoEnds(s: State, t: nat, cont: Cont, fin: seq<nat>, io: Io)
    requires Numbered(s) && (s.queue != [] ==> IoAllowed(s, s.queue[0], io)) && !s.run
    ensures MustEnd(NextIo(s, t, cont, fin, io), t)
  {
    hide Numbered;
  }

  lemma PublishEnds(s: State, t: nat, cont: Cont, fin: seq<nat>)
    requires PcOf(s, t) == Publishing(cont, fin) && fin != [] && fin[|fin| - 1] < |s.ops| && MustEnd(s, t)
    ensures MustEnd(NextPublish(s, t, cont, fin), t)
  {
  }

  lemma ResumeEnds(s: State, t: nat, o: nat, pc: Pc)
    requires o < |s.ops| && pc.Calling? && !s.run
    ensures MustEnd(ResumeIo(s, t, o, pc), t)
  {
  }

  lemma TakeEnds(s: State, t: nat, cont: Cont)
    ensures var u := TakeAll(s, t, cont); u.queue == [] && u.ready == []
  {
  }

  /** Nobody else takes this from a thread, unless the helper is started again. */
  lemma OthersLeaveEnd(s: State, a: Action, t: nat)
    requires Inv(s) && Enabled(s, a) && ByOther(a, t) && a != Start && MustEnd(s, t)
    ensures MustEnd(Next(s, a), t)
  {
    LockParts(s);
    OthersStayAway(s, a, t);
    hide Inv, Next, Enabled, Numbered;
    if !s.run { RunStaysOff(s, a); }
  }

  lemma StepEnds(s: State, a: Action, t: nat)
    requires Reachable(s) && Inv(s) && Enabled(s, a) && a != Start && MustEnd(s, t)
    ensures MustEnd(Next(s, a), t) || forall o | 0 <= o < |Next(s, a).ops| :: !Next(s, a).ops[o].stage.Queued?
  {
    if ByOther(a, t) {
      OthersLeaveEnd(s, a, t);
    } else {
      hide Inv, NextStep, Reachable, Numbered;
      assert a.Step?;
      OwnStepEnds(s, t, a.io);
      ReachableNext(s, a);
      if !MustEnd(Next(s, a), t) { NothingQueued(Next(s, a)); }
    }
  }

  // ----- runs

  lemma {:induction false} LegalPrefix(acts: seq<Action>, i: nat)
    requires Legal(acts) && i <= |acts|
    ensures Legal(acts[..i])
    decreases |acts|
  {
    hide Inv, Enabled, Run;
    if i < |acts| {
      LegalPrefix(acts[..|acts| - 1], i);
      assert acts[..|acts| - 1][..i] == acts[..i];
    } else {
      assert acts[..i] == acts;
    }
  }

  /** The state before step `i` of a run. */
  ghost function StateAt(acts: seq<Action>, i: nat): (u: State)
    requires Legal(acts) && i <= |acts|
    ensures Inv(u) && Reachable(u)
  {
    hide Inv, Legal, Run;
    LegalPrefix(acts, i);
    Run(acts[..i])
  }

  lemma StateAfter(acts: seq<Action>, i: nat)
    requires Legal(acts) && i < |acts|
    ensures Enabled(StateAt(acts, i), acts[i]) && StateAt(acts, i + 1) == Next(StateAt(acts, i), acts[i])
  {
    hide Inv, Enabled, Next, Numbered, Reachable;
    LegalPrefix(acts, i);
    LegalPrefix(acts, i + 1);
    assert acts[..i + 1][..i] == acts[..i];
  }

  /** A thread that must end everything does so: once it is through, nothing that was submitted before is queued. */
  lemma {:induction false} EndsEverything(acts: seq<Action>, i: nat, j: nat, t: nat)
    requires Legal(acts) && i <= j <= |acts| && Start !in acts[i..j]
    requires MustEnd(StateAt(acts, i), t) && !MustEnd(StateAt(acts, j), t)
    ensures var s, u := StateAt(acts, i), StateAt(acts, j);
            |s.ops| <= |u.ops| && forall o | 0 <= o < |s.ops| :: !u.ops[o].stage.Queued?
    decreases j
  {
    hide Inv, Legal, Next, Enabled, StateAt, MustEnd, Reachable;
    if i < j {
      var v, a := StateAt(acts, j - 1), acts[j - 1];
      StateAfter(acts, j - 1);
      ActionAdvances(v, a);
      assert forall x | x in acts[i..j - 1] :: x in acts[i..j];
      assert acts[i..j][j - 1 - i] == a;
      if MustEnd(v, t) {
        OpsGrow(acts, i, j - 1);
        StepEnds(v, a, t);
      } else {
        EndsEverything(acts, i, j - 1, t);
      }
    }
  }

  lemma {:induction false} OpsGrow(acts: seq<Action>, i: nat, j: nat)
    requires Legal(acts) && i <= j <= |acts|
    ensures Advances(StateAt(acts, i).ops, StateAt(acts, j).ops)
    decreases j
  {
    hide Inv, Legal, Next, Enabled, StateAt, Reachable;
    if i < j {
      OpsGrow(acts, i, j - 1);
      StateAfter(acts, j - 1);
      ActionAdvances(StateAt(acts, j - 1), acts[j - 1]);
      hide Advances;
      AdvancesOn(StateAt(acts, i).ops, StateAt(acts, j - 1).ops, StateAt(acts, j).ops);
    }
  }

  /** Once everything is quiet after a failed read or write or a Stop, everything submitted before it has been resumed,
      unless the helper was started again. */
  lemma FailureOrStopEndsAll(acts: seq<Action>, i: nat, o: nat, failed: nat)
    requires Legal(acts) && i < |acts| && Start !in acts[i + 1..]
    requires FailsFor(StateAt(acts, i), acts[i], failed) || acts[i].Stop?
    requires Quiet(Run(acts)) && o < |StateAt(acts, i).ops|
    ensures o < |Run(acts).ops| && Run(acts).ops[o].resumes == 1 && !Run(acts).ops[o].stage.Queued?
  {
    hide Inv, Legal, Next, Enabled, StateAt, MustEnd, Reachable, Run;
    StateAfter(acts, i);
    OpsGrow(acts, i, i + 1);
    StepMustEnd(StateAt(acts, i), acts[i], failed);
    WholeRun(acts);
    NotInQuiet(Run(acts), acts[i].thread);
    EndsEverything(acts, i + 1, |acts|, acts[i].thread);
    OffTheQueues(Run(acts), o);
  }

  lemma WholeRun(acts: seq<Action>)
    requires Legal(acts)
    ensures StateAt(acts, |acts|) == Run(acts) && Reachable(Run(acts))
    ensures forall i | 0 <= i <= |acts| :: acts[i..] == acts[i..|acts|]
  {
    hide Inv, Legal, Run;
    assert acts[..|acts|] == acts;
  }

  lemma StepMustEnd(s: State, a: Action, o: nat)
    requires Inv(s) && Enabled(s, a) && (FailsFor(s, a, o) || a.Stop?)
    ensures MustEnd(Next(s, a), a.thread)
  {
    hide Inv, Numbered;
    if !a.Stop? { FailureMustEnd(s, a, o); }
  }

  lemma NotInQuiet(s: State, t: nat)
    requires Quiet(s)
    ensures !MustEnd(s, t)
  {
  }

  lemma OffTheQueues(s: State, o: nat)
    requires Reachable(s) && Quiet(s) && o < |s.ops| && !s.ops[o].stage.Queued?
    ensures s.ops[o].resumes == 1
  {
    ResumedExactlyOnce(s, o);
    ReachableInv(s);
    assert OpOk(s.ops[o]);
  }

  /** A stopped helper stays stopped until it is started again; and whichever thread then goes through DoOperate ends
      everything that was submitted before it went in. */
  lemma {:induction false} StaysStopped(acts: seq<Action>, i: nat, j: nat)
    requires Legal(acts) && i <= j <= |acts| && Start !in acts[i..j] && !StateAt(acts, i).run
    ensures !StateAt(acts, j).run
    decreases j
  {
    hide Inv, Legal, Next, Enabled, StateAt, Reachable;
    if i < j {
      assert forall x | x in acts[i..j - 1] :: x in acts[i..j];
      assert acts[i..j][j - 1 - i] == acts[j - 1];
      StaysStopped(acts, i, j - 1);
      StateAfter(acts, j - 1);
      RunStaysOff(StateAt(acts, j - 1), acts[j - 1]);
    }
  }

  lemma StoppedOperateEndsAll(acts: seq<Action>, i: nat, k: nat, j: nat, t: nat)
    requires Legal(acts) && i < k <= j <= |acts| && Start !in acts[i..j] && acts[i].Stop?
    requires PcOf(StateAt(acts, k), t).Entering? && !MustEnd(StateAt(acts, j), t)
    ensures var s, u := StateAt(acts, k), StateAt(acts, j);
            |s.ops| <= |u.ops| && forall o | 0 <= o < |s.ops| :: !u.ops[o].stage.Queued?
  {
    hide Inv, Legal, Next, Enabled, StateAt, Reachable;
    assert forall x | x in acts[i + 1..k] || x in acts[k..j] :: x in acts[i..j];
    StateAfter(acts, i);
    StopTurnsOff(StateAt(acts, i), acts[i]);
    StaysStopped(acts, i + 1, k);
    EndsEverything(acts, k, j, t);
  }

  lemma StopTurnsOff(s: State, a: Action)
    requires Numbered(s) && Enabled(s, a) && a.Stop?
    ensures !Next(s, a).run
  {
  }

  // ----- a thread among the others

  /** Nobody starts the helper in turns `a` to `n`. */
  ghost predicate NoStart(given: seq<Turn>, a: nat, n: nat) {
    forall k: nat | a <= k < n :: Start !in TurnAt(given, k).others
  }

  /** The thread's own section in turn `k` is a socket call that fails. */
  ghost predicate FailsIn(origin: State, t: nat, given: seq<Turn>, k: nat)
    requires Inv(origin)
  {
    var u := Offered(Driven(origin, t, given, k), t, TurnAt(given, k).others);
    u.queue != [] && FailsFor(u, Step(t, TurnAt(given, k).io), u.queue[0])
  }

  lemma {:induction false} OfferedLeavesEnd(s: State, t: nat, actions: seq<Action>)
    requires Inv(s) && MustEnd(s, t) && Start !in actions
    ensures MustEnd(Offered(s, t, actions), t)
    decreases |actions|
  {
    hide Inv, Next, Enabled, MustEnd;
    if actions != [] {
      var u, a := Offered(s, t, actions[..|actions| - 1]), actions[|actions| - 1];
      OfferedLeavesEnd(s, t, actions[..|actions| - 1]);
      if ByOther(a, t) && Enabled(u, a) { OthersLeaveEnd(u, a, t); }
    }
  }

  lemma TurnMustEnd(s: State, t: nat, turn: Turn)
    requires Reachable(s) && Inv(s) && MustEnd(s, t) && Start !in turn.others
    ensures var u := TurnTaken(s, t, turn);
            MustEnd(u, t) || forall o | 0 <= o < |u.ops| :: !u.ops[o].stage.Queued?
  {
    hide Inv, Next, Offered, MustEnd, Reachable, Enabled;
    var u := Offered(s, t, turn.others);
    OfferedReachable(s, t, turn.others);
    OfferedLeavesEnd(s, t, turn.others);
    if PcOf(u, t) != Idle && !Blocked(u, t) {
      CanStep(u, t, turn.io);
      StepEnds(u, Step(t, IoFor(u, t, turn.io)), t);
    }
  }

  lemma {:induction false} DrivenEnds(origin: State, t: nat, given: seq<Turn>, a: nat, n: nat)
    requires Reachable(origin) && Inv(origin) && a <= n && NoStart(given, a, n)
    requires MustEnd(Driven(origin, t, given, a), t) && !MustEnd(Driven(origin, t, given, n), t)
    ensures var s, u := Driven(origin, t, given, a), Driven(origin, t, given, n);
            |s.ops| <= |u.ops| && forall o | 0 <= o < |s.ops| :: !u.ops[o].stage.Queued?
    decreases n
  {
    hide Inv, TurnTaken, Reachable, MustEnd;
    if a < n {
      var v := Driven(origin, t, given, n - 1);
      TurnAdvances(v, t, TurnAt(given, n - 1));
      DrivenAdvances(origin, t, given, a, n - 1);
      if MustEnd(v, t) {
        DrivenReachable(origin, t, given, n - 1);
        TurnMustEnd(v, t, TurnAt(given, n - 1));
      } else {
        DrivenEnds(origin, t, given, a, n - 1);
      }
    }
  }

  lemma FailsInMustEnd(origin: State, t: nat, given: seq<Turn>, k: nat)
    requires Inv(origin) && FailsIn(origin, t, given, k)
    ensures MustEnd(Driven(origin, t, given, k + 1), t)
    ensures |Driven(origin, t, given, k).ops| <= |Driven(origin, t, given, k + 1).ops|
  {
    hide Inv, Next, Offered, MustEnd, Enabled;
    var s := Driven(origin, t, given, k);
    var u := Offered(s, t, TurnAt(given, k).others);
    TurnAdvances(s, t, TurnAt(given, k));
    CanStep(u, t, TurnAt(given, k).io);
    FailureMustEnd(u, Step(t, TurnAt(given, k).io), u.queue[0]);
  }

  /** An operation that is off the queues and not with thread `t` has been called back, has timed out, or is being
      ended by another thread. */
  predicate Ended(u: State, t: nat, o: nat) {
    && o < |u.ops| && !u.ops[o].stage.Queued?
    && (u.ops[o].stage.Called? || u.ops[o].timeoutFlag || (u.ops[o].stage.InHand? && u.ops[o].stage.thread != t))
  }

  /** If a socket call of this stretch of turns failed, or the helper was stopped when it began, then everything
      submitted before that has been ended, unless somebody started the helper again meanwhile. */
  ghost predicate EndsWhenStopped(origin: State, t: nat, given: seq<Turn>, a: nat, n: nat)
    requires Inv(origin)
  {
    && (forall k: nat, o: nat |
          a <= k < n && FailsIn(origin, t, given, k) && NoStart(given, k + 1, n)
          && o < |Driven(origin, t, given, k).ops| ::
          Ended(Driven(origin, t, given, n), t, o))
    && (!Driven(origin, t, given, a).run && NoStart(given, a, n) ==>
          forall o: nat | o < |Driven(origin, t, given, a).ops| :: Ended(Driven(origin, t, given, n), t, o))
  }

  lemma NotWithThread(s: State, t: nat)
    requires Inv(s) && Hand(PcOf(s, t)) == []
    ensures forall o: nat | o < |s.ops| && !s.ops[o].stage.Queued? :: Ended(s, t, o)
  {
    forall o: nat | o < |s.ops| && !s.ops[o].stage.Queued? ensures Ended(s, t, o) {
      assert OpOk(s.ops[o]);
      assert s.ops[o].stage.InHand? ==> o in Hand(PcOf(s, s.ops[o].stage.thread));
    }
  }

  lemma CallEndsWhenStopped(origin: State, t: nat, given: seq<Turn>, a: nat, n: nat)
    requires Reachable(origin) && Inv(origin) && a <= n && PcOf(Driven(origin, t, given, a), t).Entering?
    requires var pc := PcOf(Driven(origin, t, given, n), t); pc == Idle || pc.Arming?
    ensures EndsWhenStopped(origin, t, given, a, n)
  {
    hide Inv, Reachable, Driven, FailsIn, NoStart, Ended;
    var u := Driven(origin, t, given, n);
    NotWithThread(u, t);
    forall k: nat, o: nat |
      a <= k < n && FailsIn(origin, t, given, k) && NoStart(given, k + 1, n) && o < |Driven(origin, t, given, k).ops|
      ensures Ended(u, t, o)
    {
      FailsInMustEnd(origin, t, given, k);
      DrivenEnds(origin, t, given, k + 1, n);
    }
    if !Driven(origin, t, given, a).run && NoStart(given, a, n) {
      DrivenEnds(origin, t, given, a, n);
    }
  }
}
