/** The read/write helper and a timer together: await_suspend starts the timer task, IoCallback stops it,
    and the timer's callback is OnTimeout.  Others use the same timer for tasks of their own, such as the channel's
    other helper. */
module TimedChannel {
  import opened Options
  import T = TimerSpec
  import TR = TimerRuns
  import H = ReadWriteSpec
  import HP = ReadWriteProof
  import HR = ReadWriteRuns

  /** `ringing` is the operation whose callback the timer's worker has begun and whose mutex it has still to take. */
  datatype Sys = Sys(h: H.State, t: T.State, ringing: Option<nat>)

  datatype Action =
    | Io(a: H.Action)
    | Arm(thread: nat, time: nat)
    | StopAlarm(thread: nat)
    | TimerWork(now: nat, lead: nat)
    | Ring
    | TimerShutdown
    | Foreign(call: T.Action)

  /** An operation's timer task.  The tasks of others have odd numbers. */
  function TaskOf(o: nat): (task: nat)
    ensures Own(task) && OpOf(task) == o
  {
    2 * o
  }

  predicate Own(task: nat) {
    task % 2 == 0
  }

  function OpOf(task: nat): nat {
    task / 2
  }

  lemma OwnTask(task: nat)
    requires Own(task)
    ensures TaskOf(OpOf(task)) == task
  {
  }

  function Init(kind: T.Kind): Sys {
    Sys(H.Init, T.Init(kind), None)
  }

  /** The operation whose timer task a thread is about to stop, in IoCallback. */
  function Stopping(pc: H.Pc): Option<nat> {
    match pc
    case Calling(_, fin) => if fin != [] then Some(fin[0]) else None
    case EndStopping(_, rest) => if rest != [] then Some(rest[0]) else None
    case _ => None
  }

  /** The helper's own steps are those that do not call the timer. */
  predicate OwnStep(h: H.State, a: H.Action) {
    match a
    case Ring(_) => false
    case Step(t, _) => !H.PcOf(h, t).Arming? && Stopping(H.PcOf(h, t)) == None
    case _ => true
  }

  predicate Enabled(s: Sys, a: Action) {
    match a
    case Io(b) => OwnStep(s.h, b) && H.Enabled(s.h, b)
    case Arm(thread, time) =>
      H.PcOf(s.h, thread).Arming? && T.Enabled(s.t, T.StartTask(TaskOf(H.PcOf(s.h, thread).op), time))
    case StopAlarm(thread) => Stopping(H.PcOf(s.h, thread)).Some?
    case TimerWork(now, lead) => s.ringing == None && T.Enabled(s.t, T.Work(now, lead))
    case Ring => s.ringing.Some? && H.Enabled(s.h, H.Ring(s.ringing.value))
    case TimerShutdown => true
    case Foreign(b) => (b.StartTask? || b.StopTask?) && !Own(b.task) && T.Enabled(s.t, b)
  }

  /** The operation whose task a worker section calls back, if it calls one back. */
  function Delivered(t: T.State, u: T.State): Option<nat> {
    if && |u.log| == |t.log| + 1 && u.log[|t.log|].id in t.records && Own(t.records[u.log[|t.log|].id].task)
    then Some(OpOf(t.records[u.log[|t.log|].id].task))
    else None
  }

  /** await_suspend's StartTask. */
  function Arming(s: Sys, thread: nat, o: nat, time: nat): Sys
    requires T.Recorded(s.t) && H.Numbered(s.h) && H.PcOf(s.h, thread) == H.Arming(o)
  {
    s.(h := H.NextStep(s.h, thread, H.WouldBlock), t := T.NextStart(s.t, TaskOf(o), time))
  }

  function Next(s: Sys, a: Action): Sys
    requires T.Recorded(s.t) && H.Numbered(s.h) && Enabled(s, a)
  {
    match a
    case Io(b) => s.(h := H.Next(s.h, b))
    case Arm(thread, time) =>
      Arming(s, thread, H.PcOf(s.h, thread).op, time)
    case StopAlarm(thread) =>
      s.(h := H.NextStep(s.h, thread, H.WouldBlock), t := T.NextStop(s.t, TaskOf(Stopping(H.PcOf(s.h, thread)).value)))
    case TimerWork(now, lead) =>
      var u := T.NextWork(s.t, now, lead);
      s.(t := u, ringing := Delivered(s.t, u))
    case Ring => s.(h := H.NextRing(s.h, s.ringing.value), ringing := None)
    case TimerShutdown => s.(t := T.NextShutdown(s.t))
    case Foreign(b) => s.(t := T.Next(s.t, b))
  }

  // ----- the coupling

  /** Every own record is an armed operation's, and each operation has at most one. */
  ghost predicate OneRecordEach(s: Sys) {
    && (forall i | i in s.t.records && Own(s.t.records[i].task) ::
          OpOf(s.t.records[i].task) < |s.h.ops| && s.h.ops[OpOf(s.t.records[i].task)].alarm != H.Unarmed)
    && (forall i, j | i in s.t.records && j in s.t.records && Own(s.t.records[i].task)
                      && s.t.records[i].task == s.t.records[j].task :: i == j)
  }

  /** An alarm is armed exactly while the timer owes its callback. */
  ghost predicate Owed(s: Sys) {
    && (forall o: nat | o < |s.h.ops| ::
          s.h.ops[o].alarm == H.Armed <==> TaskOf(o) in s.t.timerData || s.ringing == Some(o))
    && (s.ringing.Some? ==> s.ringing.value < |s.h.ops| && TaskOf(s.ringing.value) !in s.t.timerData)
    && (forall k | k in s.t.timerData && Own(k) :: OpOf(k) < |s.h.ops|)
  }

  /** Only finished operations have their timer tasks stopped. */
  ghost predicate StoppedFinished(s: Sys) {
    forall i | (i in s.t.stops || i in s.t.needStop) && i in s.t.records && Own(s.t.records[i].task)
               && OpOf(s.t.records[i].task) < |s.h.ops| ::
      s.h.ops[OpOf(s.t.records[i].task)].finishFlag
  }

  /** The coupling part of the invariant. */
  ghost predicate Coupled(s: Sys) {
    OneRecordEach(s) && Owed(s) && StoppedFinished(s)
  }

  ghost predicate Inv(s: Sys): (b: bool)
    ensures b ==> T.Recorded(s.t) && H.Numbered(s.h)
  {
    T.Inv(s.t) && H.Inv(s.h) && HR.Reachable(s.h) && Coupled(s)
  }

  // ----- what the two machines' steps do to the coupling

  /** Operations are never removed, alarms do not move, and a finish flag stays set. */
  ghost predicate Grows(a: seq<H.Op>, b: seq<H.Op>) {
    && |a| <= |b|
    && (forall o | 0 <= o < |a| :: b[o].alarm == a[o].alarm && (a[o].finishFlag ==> b[o].finishFlag))
    && (forall o | |a| <= o < |b| :: b[o].alarm == H.Unarmed)
  }

  lemma IoGrows(h: H.State, t: nat, cont: H.Cont, fin: seq<nat>, io: H.Io)
    requires H.Numbered(h) && (h.queue != [] ==> H.IoAllowed(h, h.queue[0], io))
    ensures Grows(h.ops, H.NextIo(h, t, cont, fin, io).ops)
  {
    hide H.Numbered;
  }

  lemma PublishGrows(h: H.State, t: nat, cont: H.Cont, fin: seq<nat>)
    requires fin != [] && fin[|fin| - 1] < |h.ops|
    ensures Grows(h.ops, H.NextPublish(h, t, cont, fin).ops)
  {
  }

  lemma TakeGrows(h: H.State, t: nat, cont: H.Cont)
    ensures Grows(h.ops, H.TakeAll(h, t, cont).ops)
  {
  }

  lemma EndGrows(h: H.State, t: nat, cont: H.Cont, rest: seq<nat>)
    requires rest != [] ==> rest[0] < |h.ops|
    ensures Grows(h.ops, H.NextEnd(h, t, cont, rest).ops)
  {
  }

  lemma ResumeGrows(h: H.State, t: nat, o: nat, pc: H.Pc)
    requires o < |h.ops|
    ensures Grows(h.ops, H.ResumeIo(h, t, o, pc).ops)
  {
  }

  lemma OwnThreadStepGrows(h: H.State, t: nat, io: H.Io)
    requires H.Numbered(h) && H.Enabled(h, H.Step(t, io)) && OwnStep(h, H.Step(t, io))
    ensures Grows(h.ops, H.NextStep(h, t, io).ops)
  {
    hide H.NextIo, H.NextEnd, H.NextPublish, H.TakeAll, H.ResumeIo;
    var pc := H.PcOf(h, t);
    var hand := H.Hand(pc);
    assert hand != [] ==> hand[0] < |h.ops| && hand[|hand| - 1] < |h.ops|;
    match pc
    case Looping(cont, fin) => IoGrows(h, t, cont, fin, io);
    case Publishing(cont, fin) => PublishGrows(h, t, cont, fin);
    case Ending(cont) => TakeGrows(h, t, cont);
    case EndLoop(cont, rest) => EndGrows(h, t, cont, rest);
    case Resuming(cont, fin) => ResumeGrows(h, t, fin[0], H.Calling(cont, fin[1..]));
    case EndResuming(cont, rest) => ResumeGrows(h, t, rest[0], H.EndLoop(cont, rest[1..]));
    case _ =>
  }

  lemma OwnStepGrows(h: H.State, a: H.Action)
    requires H.Numbered(h) && H.Enabled(h, a) && OwnStep(h, a)
    ensures Grows(h.ops, H.Next(h, a).ops)
  {
    hide H.NextStep;
    if a.Step? { OwnThreadStepGrows(h, a.thread, a.io); }
  }

  lemma InvParts(s: Sys)
    requires Inv(s)
    ensures T.Inv(s.t) && H.Inv(s.h) && HR.Reachable(s.h)
    ensures OneRecordEach(s) && Owed(s) && StoppedFinished(s) && Coupled(s)
    ensures T.Recorded(s.t) && H.Numbered(s.h)
  {
    hide T.Inv, H.Inv, HR.Reachable, OneRecordEach, Owed, StoppedFinished;
  }

  lemma InvFrom(s: Sys)
    requires T.Inv(s.t) && H.Inv(s.h) && HR.Reachable(s.h)
    requires OneRecordEach(s) && Owed(s) && StoppedFinished(s)
    ensures Inv(s)
  {
    hide T.Inv, H.Inv, HR.Reachable, OneRecordEach, Owed, StoppedFinished;
  }

  lemma IoKeepsInv(s: Sys, a: H.Action)
    requires Inv(s) && OwnStep(s.h, a) && H.Enabled(s.h, a)
    ensures Inv(s.(h := H.Next(s.h, a)))
  {
    var u := s.(h := H.Next(s.h, a));
    InvParts(s);
    hide Inv, H.Inv, T.Inv, H.Next, H.Numbered, H.Enabled, Grows, OneRecordEach, Owed, StoppedFinished;
    OwnStepGrows(s.h, a);
    HR.ReachableNext(s.h, a);
    GrowsCouples(s, u);
    InvFrom(u);
  }

  lemma GrowsCouples(s: Sys, u: Sys)
    requires OneRecordEach(s) && Owed(s) && StoppedFinished(s)
    requires Grows(s.h.ops, u.h.ops) && u.t == s.t && u.ringing == s.ringing
    ensures OneRecordEach(u) && Owed(u) && StoppedFinished(u)
  {
  }

  lemma WorkFires(t: T.State)
    requires T.Inv(t)
    ensures T.Recorded(t) && (t.pc.Draining? ==> t.needExecute == [])
  {
  }

  lemma GatherEffect(t: T.State, now: nat, lead: nat)
    requires T.Recorded(t)
    ensures var u := T.Gather(t, now, lead);
            && u.records == t.records && u.log == t.log && u.timerData == t.timerData
            && (forall i | i in u.stops || i in u.needStop :: i in t.stops || i in t.needStop)
  {
    hide T.Recorded;
  }

  /** A worker section keeps the records, calls back at most one of them, and adds nothing to the stop lists. */
  lemma WorkEffect(t: T.State, now: nat, lead: nat)
    requires T.Inv(t) && t.pc != T.Returned
    ensures var u := T.NextWork(t, now, lead);
            && u.records == t.records
            && (forall i | i in u.stops || i in u.needStop :: i in t.stops || i in t.needStop)
            && ((u.log == t.log && u.timerData == t.timerData)
                || (exists d ::
                      u.log == t.log + [d] && d.id in t.records && t.records[d.id].task in t.timerData
                      && u.timerData == t.timerData - {t.records[d.id].task}))
  {
    hide T.Inv, T.Fire, T.Gather, T.Deliver, T.Recorded, T.FireId;
    WorkFires(t);
    if t.pc.Firing? && t.needExecute != [] {
      FireEffect(t, T.Success);
    } else if (t.pc.Firing? || t.pc.Draining?) && t.needStop != [] {
      FireEffect(t, T.TaskStop);
    } else if t.pc.Draining? && t.residue != [] {
      FireEffect(t, T.TimerStop);
    } else {
      GatherEffect(t, now, lead);
    }
  }

  lemma FireEffect(t: T.State, outcome: T.Outcome)
    requires T.Inv(t) && T.CanFire(t, outcome)
    ensures var u := T.Fire(t, outcome);
            var d := T.Delivery(T.FireId(t, outcome), outcome);
            && u.records == t.records && u.log == t.log + [d]
            && d.id in t.records && t.records[d.id].task in t.timerData
            && u.timerData == t.timerData - {t.records[d.id].task}
            && (forall i | i in u.stops || i in u.needStop :: i in t.stops || i in t.needStop)
  {
    assert T.Waiting(t, T.FireId(t, outcome));
  }

  lemma DeliverCouples(s: Sys, u: Sys, o: nat)
    requires Coupled(s) && u.h == s.h && u.t.records == s.t.records
    requires forall i | i in u.t.stops || i in u.t.needStop :: i in s.t.stops || i in s.t.needStop
    requires s.ringing == None && TaskOf(o) in s.t.timerData
    requires u.t.timerData == s.t.timerData - {TaskOf(o)} && u.ringing == Some(o)
    ensures Coupled(u)
  {
    forall k | k in s.t.timerData && Own(k) && OpOf(k) == o ensures k == TaskOf(o) { OwnTask(k); }
  }

  lemma ForeignDeliverCouples(s: Sys, u: Sys, task: nat)
    requires Coupled(s) && u.h == s.h && u.t.records == s.t.records
    requires forall i | i in u.t.stops || i in u.t.needStop :: i in s.t.stops || i in s.t.needStop
    requires !Own(task) && u.t.timerData == s.t.timerData - {task} && u.ringing == s.ringing
    ensures Coupled(u)
  {
  }

  lemma NoDeliveryCouples(s: Sys, u: Sys)
    requires Coupled(s) && u.h == s.h && u.t.records == s.t.records
    requires forall i | i in u.t.stops || i in u.t.needStop :: i in s.t.stops || i in s.t.needStop
    requires u.t.timerData == s.t.timerData && u.ringing == s.ringing
    ensures Coupled(u)
  {
  }

  lemma CoupledParts(s: Sys)
    requires Coupled(s)
    ensures OneRecordEach(s) && Owed(s) && StoppedFinished(s)
  {
    hide OneRecordEach, Owed, StoppedFinished;
  }

  lemma WorkKeepsInv(s: Sys, now: nat, lead: nat)
    requires Inv(s) && Enabled(s, TimerWork(now, lead))
    ensures Inv(Next(s, TimerWork(now, lead)))
  {
    hide T.Inv, H.Inv, HR.Reachable, OneRecordEach, Owed, StoppedFinished, T.Recorded, H.Numbered, T.NextWork;
    var u := Next(s, TimerWork(now, lead));
    T.WorkKeepsInv(s.t, now, lead);
    WorkEffect(s.t, now, lead);
    if u.t.log == s.t.log {
      NoDeliveryCouples(s, u);
    } else {
      var d :| u.t.log == s.t.log + [d] && d.id in s.t.records && s.t.records[d.id].task in s.t.timerData
               && u.t.timerData == s.t.timerData - {s.t.records[d.id].task};
      var task := s.t.records[d.id].task;
      if Own(task) {
        OwnTask(task);
        DeliverCouples(s, u, OpOf(task));
      } else {
        ForeignDeliverCouples(s, u, task);
      }
    }
  }

  lemma OneMoreRecord(s: Sys, u: Sys, o: nat, id: nat, time: nat)
    requires OneRecordEach(s) && Owed(s) && o < |s.h.ops| && s.h.ops[o].alarm == H.Unarmed && id !in s.t.records
    requires u.h.ops == s.h.ops[o := s.h.ops[o].(alarm := H.Armed)]
    requires u.t.records == s.t.records[id := T.Record(TaskOf(o), time)]
    ensures OneRecordEach(u)
  {
    forall i | i in u.t.records && i != id ensures u.t.records[i].task != TaskOf(o) {
      assert Own(s.t.records[i].task) ==> s.h.ops[OpOf(s.t.records[i].task)].alarm != H.Unarmed;
    }
  }

  lemma ArmedCouples(s: Sys, u: Sys, o: nat, id: nat, time: nat)
    requires Coupled(s) && H.Numbered(s.h) && o < |s.h.ops| && s.h.ops[o].alarm == H.Unarmed
    requires id !in s.t.records && id !in s.t.stops && id !in s.t.needStop
    requires u.h.ops == s.h.ops[o := s.h.ops[o].(alarm := H.Armed)]
    requires u.t.records == s.t.records[id := T.Record(TaskOf(o), time)]
    requires u.t.timerData == s.t.timerData[TaskOf(o) := id]
    requires u.t.stops == s.t.stops && u.t.needStop == s.t.needStop && u.ringing == s.ringing
    ensures Coupled(u)
  {
    OneMoreRecord(s, u, o, id, time);
  }

  lemma ArmFacts(s: Sys, thread: nat)
    requires Inv(s) && H.PcOf(s.h, thread).Arming?
    ensures var o := H.PcOf(s.h, thread).op;
            o < |s.h.ops| && s.h.ops[o].alarm == H.Unarmed
    ensures s.t.nextId !in s.t.records && s.t.nextId !in s.t.stops && s.t.nextId !in s.t.needStop
  {
    assert H.PendingArm(H.PcOf(s.h, thread)) == Some(H.PcOf(s.h, thread).op);
    assert s.t.nextId !in s.t.records;
  }

  lemma ArmHelper(h: H.State, thread: nat)
    requires H.Numbered(h) && H.PcOf(h, thread).Arming? && H.PcOf(h, thread).op < |h.ops|
    ensures var o := H.PcOf(h, thread).op;
            H.NextStep(h, thread, H.WouldBlock).ops == h.ops[o := h.ops[o].(alarm := H.Armed)]
  {
  }

  lemma StartEffect(t: T.State, task: nat, time: nat)
    requires T.Recorded(t)
    ensures var u := T.NextStart(t, task, time);
            && u.records == t.records[t.nextId := T.Record(task, time)] && u.timerData == t.timerData[task := t.nextId]
            && u.stops == t.stops && u.needStop == t.needStop
  {
  }

  lemma ArmCouples(s: Sys, thread: nat, o: nat, time: nat)
    requires Inv(s) && H.PcOf(s.h, thread) == H.Arming(o)
    ensures Coupled(Arming(s, thread, o, time))
  {
    ArmFacts(s, thread);
    ArmHelper(s.h, thread);
    StartEffect(s.t, TaskOf(o), time);
    var u := Arming(s, thread, o, time);
    assert u.h.ops == s.h.ops[o := s.h.ops[o].(alarm := H.Armed)];
    assert u.t.records == s.t.records[s.t.nextId := T.Record(TaskOf(o), time)];
    assert u.t.timerData == s.t.timerData[TaskOf(o) := s.t.nextId];
    assert u.t.stops == s.t.stops && u.t.needStop == s.t.needStop && u.ringing == s.ringing;
    assert Coupled(s);
    hide *;
    ArmedCouples(s, u, o, s.t.nextId, time);
  }

  lemma ArmKeepsInv(s: Sys, thread: nat, o: nat, time: nat)
    requires Inv(s) && Enabled(s, Arm(thread, time)) && H.PcOf(s.h, thread) == H.Arming(o)
    ensures Inv(Arming(s, thread, o, time))
  {
    hide T.Inv, H.Inv, Coupled, H.NextStep, T.NextStart;
    ArmCouples(s, thread, o, time);
    T.StartKeepsInv(s.t, TaskOf(o), time);
    HelperStep(s.h, thread);
  }

  lemma StopAlarmCouples(s: Sys, u: Sys, o: nat)
    requires Coupled(s) && o < |s.h.ops| && s.h.ops[o].finishFlag && u.h.ops == s.h.ops && u.ringing == s.ringing
    requires u.t.records == s.t.records && u.t.timerData == s.t.timerData && u.t.needStop == s.t.needStop
    requires u.t.stops == s.t.stops
             || (TaskOf(o) in s.t.timerData && s.t.timerData[TaskOf(o)] in s.t.records
                 && s.t.records[s.t.timerData[TaskOf(o)]].task == TaskOf(o)
                 && u.t.stops == s.t.stops + [s.t.timerData[TaskOf(o)]])
    ensures Coupled(u)
  {
  }

  lemma StopAlarmFacts(s: Sys, thread: nat)
    requires Inv(s) && Enabled(s, StopAlarm(thread))
    ensures var o := Stopping(H.PcOf(s.h, thread)).value;
            && o < |s.h.ops| && s.h.ops[o].finishFlag
            && (TaskOf(o) in s.t.timerData ==>
                  s.t.timerData[TaskOf(o)] in s.t.records && s.t.records[s.t.timerData[TaskOf(o)]].task == TaskOf(o))
  {
    HP.HeadOf(s.h, thread, 0);
  }

  lemma StopEffect(t: T.State, task: nat)
    ensures var u := T.NextStop(t, task);
            && u.records == t.records && u.timerData == t.timerData && u.needStop == t.needStop
            && (u.stops == t.stops || (task in t.timerData && u.stops == t.stops + [t.timerData[task]]))
  {
  }

  lemma StoppingLeavesOps(h: H.State, thread: nat)
    requires H.Numbered(h) && Stopping(H.PcOf(h, thread)).Some?
    ensures H.Enabled(h, H.Step(thread, H.WouldBlock))
    ensures H.NextStep(h, thread, H.WouldBlock).ops == h.ops
  {
    hide H.Numbered;
  }

  lemma StopAlarmKeepsInv(s: Sys, thread: nat)
    requires Inv(s) && Enabled(s, StopAlarm(thread))
    ensures Inv(Next(s, StopAlarm(thread)))
  {
    var o := Stopping(H.PcOf(s.h, thread)).value;
    var u := Next(s, StopAlarm(thread));
    StopAlarmFacts(s, thread);
    StopEffect(s.t, TaskOf(o));
    StoppingLeavesOps(s.h, thread);
    InvParts(s);
    hide Inv, T.Inv, H.Inv, Coupled, T.NextStop, H.NextStep, OneRecordEach, Owed, StoppedFinished, T.Recorded,
         H.Numbered;
    StopAlarmCouples(s, u, o);
    T.StopKeepsInv(s.t, TaskOf(o));
    HelperStep(s.h, thread);
    CoupledParts(u);
    InvFrom(u);
  }

  lemma ForeignStartCouples(s: Sys, u: Sys, task: nat, id: nat, time: nat)
    requires Coupled(s) && !Own(task) && u.h == s.h && u.ringing == s.ringing
    requires id !in s.t.records && id !in s.t.stops && id !in s.t.needStop
    requires u.t.records == s.t.records[id := T.Record(task, time)] && u.t.timerData == s.t.timerData[task := id]
    requires u.t.stops == s.t.stops && u.t.needStop == s.t.needStop
    ensures Coupled(u)
  {
  }

  lemma ForeignStopCouples(s: Sys, u: Sys, task: nat)
    requires Coupled(s) && !Own(task) && u.h == s.h && u.ringing == s.ringing
    requires u.t.records == s.t.records && u.t.timerData == s.t.timerData && u.t.needStop == s.t.needStop
    requires u.t.stops == s.t.stops
             || (task in s.t.timerData && s.t.timerData[task] in s.t.records
                 && s.t.records[s.t.timerData[task]].task == task && u.t.stops == s.t.stops + [s.t.timerData[task]])
    ensures Coupled(u)
  {
  }

  lemma TaskFacts(t: T.State, task: nat)
    requires T.Inv(t)
    ensures t.nextId !in t.records && t.nextId !in t.stops && t.nextId !in t.needStop
    ensures task in t.timerData ==> t.timerData[task] in t.records && t.records[t.timerData[task]].task == task
  {
    assert t.nextId !in t.records;
  }

  lemma ForeignStartKeepsInv(s: Sys, task: nat, time: nat)
    requires Inv(s) && !Own(task) && T.Enabled(s.t, T.StartTask(task, time))
    ensures Inv(s.(t := T.NextStart(s.t, task, time)))
  {
    hide Inv, T.Inv, H.Inv, Coupled, T.NextStart, OneRecordEach, Owed, StoppedFinished, T.Recorded, H.Numbered,
         HR.Reachable;
    var u := s.(t := T.NextStart(s.t, task, time));
    InvParts(s);
    TaskFacts(s.t, task);
    StartEffect(s.t, task, time);
    T.StartKeepsInv(s.t, task, time);
    ForeignStartCouples(s, u, task, s.t.nextId, time);
    CoupledParts(u);
    InvFrom(u);
  }

  lemma ForeignStopKeepsInv(s: Sys, task: nat)
    requires Inv(s) && !Own(task)
    ensures Inv(s.(t := T.NextStop(s.t, task)))
  {
    hide Inv, T.Inv, H.Inv, Coupled, T.NextStop, OneRecordEach, Owed, StoppedFinished, T.Recorded, H.Numbered,
         HR.Reachable;
    var u := s.(t := T.NextStop(s.t, task));
    InvParts(s);
    TaskFacts(s.t, task);
    StopEffect(s.t, task);
    T.StopKeepsInv(s.t, task);
    ForeignStopCouples(s, u, task);
    CoupledParts(u);
    InvFrom(u);
  }

  /** What others do to the timer leaves the helper's share of it alone. */
  lemma ForeignKeepsInv(s: Sys, a: T.Action)
    requires Inv(s) && Enabled(s, Foreign(a))
    ensures Inv(Next(s, Foreign(a)))
  {
    hide Inv, T.NextStart, T.NextStop;
    if a.StartTask? {
      ForeignStartKeepsInv(s, a.task, a.time);
    } else {
      ForeignStopKeepsInv(s, a.task);
    }
  }

  lemma RungCouples(s: Sys, u: Sys, o: nat)
    requires Coupled(s) && s.ringing == Some(o) && o < |s.h.ops| && u == s.(h := H.NextRing(s.h, o), ringing := None)
    ensures Coupled(u)
  {
  }

  lemma RungHelper(h: H.State, o: nat)
    requires HR.Reachable(h) && H.Inv(h) && H.Enabled(h, H.Ring(o))
    ensures HR.Reachable(H.NextRing(h, o)) && H.Inv(H.NextRing(h, o))
  {
    hide H.Inv, HR.Reachable, H.NextRing;
    HR.ReachableNext(h, H.Ring(o));
  }

  lemma RingKeepsInv(s: Sys)
    requires Inv(s) && Enabled(s, Ring)
    ensures Inv(Next(s, Ring))
  {
    hide T.Inv, H.Inv, HR.Reachable, OneRecordEach, Owed, StoppedFinished, T.Recorded, H.Numbered;
    RungHelper(s.h, s.ringing.value);
    hide H.NextRing;
    RungCouples(s, Next(s, Ring), s.ringing.value);
  }

  lemma ShutdownKeepsInv(s: Sys)
    requires Inv(s)
    ensures Inv(s.(t := T.NextShutdown(s.t)))
  {
    T.ShutdownKeepsInv(s.t);
    assert Coupled(s);
    hide T.Inv, H.Inv, Coupled;
    NoDeliveryCouples(s, s.(t := T.NextShutdown(s.t)));
  }

  lemma InitInv(kind: T.Kind)
    ensures Inv(Init(kind))
  {
    T.InitInv(kind);
    H.InitInv();
    HR.ReachableInit();
  }

  /** Every step of the composed system keeps both machines' invariants and their coupling. */
  lemma NextKeepsInv(s: Sys, a: Action)
    requires Inv(s) && Enabled(s, a)
    ensures Inv(Next(s, a))
  {
    hide Inv;
    match a
    case Io(b) => IoKeepsInv(s, b);
    case Arm(thread, time) => ArmKeepsInv(s, thread, H.PcOf(s.h, thread).op, time);
    case StopAlarm(thread) => StopAlarmKeepsInv(s, thread);
    case TimerWork(now, lead) => WorkKeepsInv(s, now, lead);
    case Ring => RingKeepsInv(s);
    case TimerShutdown => ShutdownKeepsInv(s);
    case Foreign(b) => ForeignKeepsInv(s, b);
  }

  lemma HelperStep(h: H.State, thread: nat)
    requires HR.Reachable(h) && H.Inv(h) && H.Enabled(h, H.Step(thread, H.WouldBlock))
    ensures HR.Reachable(H.NextStep(h, thread, H.WouldBlock)) && H.Inv(H.NextStep(h, thread, H.WouldBlock))
  {
    hide H.Inv, HR.Reachable;
    HR.ReachableNext(h, H.Step(thread, H.WouldBlock));
  }

  // ----- runs of the whole

  ghost predicate Legal(kind: T.Kind, acts: seq<Action>)
    decreases |acts|, 0
  {
    acts == []
    || (Legal(kind, acts[..|acts| - 1]) && Enabled(Run(kind, acts[..|acts| - 1]), acts[|acts| - 1]))
  }

  ghost function Run(kind: T.Kind, acts: seq<Action>): (u: Sys)
    requires Legal(kind, acts)
    ensures Inv(u)
    decreases |acts|, 1
  {
    if acts == [] then
      InitInv(kind);
      Init(kind)
    else
      hide Inv;
      NextKeepsInv(Run(kind, acts[..|acts| - 1]), acts[|acts| - 1]);
      Next(Run(kind, acts[..|acts| - 1]), acts[|acts| - 1])
  }

  /** The StopTask of this step, if it is one, reaches a record that the worker has already moved to its residue. */
  predicate Drains(s: Sys, a: Action) {
    match a
    case StopAlarm(thread) =>
      && Stopping(H.PcOf(s.h, thread)).Some?
      && TR.DrainedStop(s.t, T.StopTask(TaskOf(Stopping(H.PcOf(s.h, thread)).value)))
    case Foreign(b) => TR.DrainedStop(s.t, b)
    case _ => false
  }

  /** No step of the run does that: `Timer` would erase the record through the tree it has just emptied, and leave
      the one it is draining with a link to a node that is gone. */
  ghost predicate Intact(kind: T.Kind, acts: seq<Action>)
    requires Legal(kind, acts)
    decreases |acts|
  {
    acts == []
    || (Intact(kind, acts[..|acts| - 1]) && !Drains(Run(kind, acts[..|acts| - 1]), acts[|acts| - 1]))
  }

  lemma StepStrandsNothing(s: Sys, a: Action)
    requires Inv(s) && Enabled(s, a) && !Drains(s, a)
    ensures TR.Stranded(Next(s, a).t) == TR.Stranded(s.t) && Next(s, a).t.kind == s.t.kind
  {
    TimerParts(s);
    hide Inv, H.Numbered, T.Recorded, T.Phase, T.Next, T.NextStart, T.NextStop, T.NextWork, T.NextShutdown, H.Next;
    match a
    case Io(b) =>
    case Arm(thread, time) => TimerStep(s.t, T.StartTask(TaskOf(H.PcOf(s.h, thread).op), time));
    case StopAlarm(thread) => TimerStep(s.t, T.StopTask(TaskOf(Stopping(H.PcOf(s.h, thread)).value)));
    case TimerWork(now, lead) => TimerStep(s.t, T.Work(now, lead));
    case Ring =>
    case TimerShutdown => TimerStep(s.t, T.Shutdown);
    case Foreign(b) => TR.StrandedStep(s.t, b);
  }

  lemma TimerParts(s: Sys)
    requires Inv(s)
    ensures T.Recorded(s.t) && T.Phase(s.t)
  {
  }

  /** A timer step in both ways of writing it. */
  lemma TimerStep(t: T.State, a: T.Action)
    requires T.Recorded(t) && T.Phase(t) && T.Enabled(t, a) && !TR.DrainedStop(t, a)
    ensures var u := match a
                     case StartTask(task, time) => T.NextStart(t, task, time)
                     case StopTask(task) => T.NextStop(t, task)
                     case Shutdown => T.NextShutdown(t)
                     case Work(now, lead) => T.NextWork(t, now, lead);
            TR.Stranded(u) == TR.Stranded(t) && u.kind == t.kind
  {
    TR.StrandedStep(t, a);
    hide TR.Stranded, T.Recorded, T.Phase, T.NextStart, T.NextStop, T.NextWork, T.NextShutdown;
  }

  // ----- what stopping an operation's timer task does

  /** The operation has had its timer task started, and the timer does not hold it in its queue any more. */
  ghost predicate Unqueued(s: Sys, o: nat) {
    && o < |s.h.ops| && s.h.ops[o].alarm != H.Unarmed
    && forall id | id in s.t.tree && id in s.t.records :: s.t.records[id].task != TaskOf(o)
  }

  /** After a StopTask no queued record is the task's. */
  lemma StopUnqueues(t: T.State, task: nat, id: nat)
    requires T.Inv(t) && id in T.NextStop(t, task).tree
    ensures id in t.tree && id in t.records && t.records[id].task != task
  {
    if task in t.timerData && t.timerData[task] in t.tree {
      T.TreeAlone(t, t.timerData[task]);
      T.WithoutCounts(t.tree, t.timerData[task]);
    }
    assert T.Waiting(t, id);
  }

  lemma StopAlarmUnqueues(s: Sys, thread: nat, o: nat)
    requires Inv(s) && Enabled(s, StopAlarm(thread)) && Stopping(H.PcOf(s.h, thread)) == Some(o)
    requires o < |s.h.ops| && s.h.ops[o].alarm != H.Unarmed
    ensures Unqueued(Next(s, StopAlarm(thread)), o)
  {
    InvParts(s);
    hide Inv, T.Inv, H.Inv, T.NextStop, H.NextStep, H.Numbered, T.Recorded;
    var u := Next(s, StopAlarm(thread));
    StoppingLeavesOps(s.h, thread);
    StopEffect(s.t, TaskOf(o));
    forall id | id in u.t.tree && id in u.t.records ensures u.t.records[id].task != TaskOf(o) {
      StopUnqueues(s.t, TaskOf(o), id);
    }
  }

  /** The timer's own queue only grows by starts. */
  lemma TreeShrinks(t: T.State, now: nat, lead: nat, id: nat)
    requires T.Recorded(t) && T.Phase(t) && t.pc != T.Returned && id in T.NextWork(t, now, lead).tree
    ensures id in t.tree && T.NextWork(t, now, lead).records == t.records
  {
    hide T.Recorded, T.Fire, T.Gather;
    GatherShrinks(t, now, lead);
    FireLeavesTree(t);
  }

  lemma GatherShrinks(t: T.State, now: nat, lead: nat)
    requires T.Recorded(t)
    ensures T.Gather(t, now, lead).records == t.records
    ensures forall id | id in T.Gather(t, now, lead).tree :: id in t.tree
  {
    hide T.Recorded;
  }

  lemma FireLeavesTree(t: T.State)
    requires T.Recorded(t)
    ensures forall outcome | T.CanFire(t, outcome) ::
              T.Fire(t, outcome).records == t.records && T.Fire(t, outcome).tree == t.tree
  {
    hide T.Recorded;
  }

  lemma StartGrowsTree(t: T.State, task: nat, time: nat, id: nat)
    requires T.Recorded(t) && id in T.NextStart(t, task, time).tree
    ensures id in t.tree || id == t.nextId
  {
    hide T.Recorded;
  }

  lemma StartKeepsUnqueued(s: Sys, u: Sys, task: nat, time: nat, o: nat)
    requires T.Recorded(s.t) && Unqueued(s, o) && o < |u.h.ops| && u.h.ops[o].alarm != H.Unarmed
    requires task != TaskOf(o) && u.t == T.NextStart(s.t, task, time)
    ensures Unqueued(u, o)
  {
    hide T.Recorded, T.NextStart;
    StartEffect(s.t, task, time);
    forall id | id in u.t.tree && id in u.t.records ensures u.t.records[id].task != TaskOf(o) {
      StartGrowsTree(s.t, task, time, id);
      assert T.Recorded(s.t);
      if id in s.t.tree { TreeIsRecorded(s.t, id); }
    }
  }

  lemma TreeIsRecorded(t: T.State, id: nat)
    requires T.Recorded(t) && id in t.tree
    ensures id in t.records
  {
  }

  lemma StopKeepsUnqueued(s: Sys, u: Sys, task: nat, o: nat)
    requires T.Inv(s.t) && Unqueued(s, o) && u.h.ops == s.h.ops && u.t == T.NextStop(s.t, task)
    ensures Unqueued(u, o)
  {
    hide T.Inv, T.NextStop;
    StopEffect(s.t, task);
    forall id | id in u.t.tree && id in u.t.records ensures u.t.records[id].task != TaskOf(o) {
      StopUnqueues(s.t, task, id);
    }
  }

  lemma WorkKeepsUnqueued(s: Sys, u: Sys, now: nat, lead: nat, o: nat)
    requires T.Recorded(s.t) && T.Phase(s.t) && s.t.pc != T.Returned && Unqueued(s, o)
    requires u.h == s.h && u.t == T.NextWork(s.t, now, lead)
    ensures Unqueued(u, o)
  {
    hide T.Recorded, T.Phase, T.NextWork;
    forall id | id in u.t.tree && id in u.t.records ensures u.t.records[id].task != TaskOf(o) {
      TreeShrinks(s.t, now, lead, id);
    }
  }

  lemma OwnKeepsUnqueued(s: Sys, u: Sys, o: nat)
    requires Unqueued(s, o) && Grows(s.h.ops, u.h.ops) && u.t == s.t
    ensures Unqueued(u, o)
  {
  }

  lemma StepKeepsUnqueued(s: Sys, a: Action, o: nat)
    requires Inv(s) && Enabled(s, a) && Unqueued(s, o)
    ensures Unqueued(Next(s, a), o)
  {
    hide Inv, T.Inv, H.Inv, HR.Reachable, T.Phase, T.NextStop, T.NextStart, T.NextWork, T.NextShutdown, H.Next,
         H.NextStep, H.NextRing, H.Numbered, T.Recorded, Unqueued, Grows, Coupled, OneRecordEach, Owed, StoppedFinished;
    InvParts(s);
    TimerParts(s);
    UnqueuedIsArmed(s, o);
    var u := Next(s, a);
    match a
    case Io(b) => OwnStepGrows(s.h, b); OwnKeepsUnqueued(s, u, o);
    case Arm(thread, time) => ArmKeepsUnqueued(s, thread, H.PcOf(s.h, thread).op, time, o);
    case StopAlarm(thread) =>
      StoppingLeavesOps(s.h, thread);
      StopKeepsUnqueued(s, u, TaskOf(Stopping(H.PcOf(s.h, thread)).value), o);
    case TimerWork(now, lead) => WorkKeepsUnqueued(s, u, now, lead, o);
    case Ring => RingKeepsUnqueued(s, o);
    case TimerShutdown => ShutdownKeepsUnqueued(s, o);
    case Foreign(b) =>
      if b.StartTask? { StartKeepsUnqueued(s, u, b.task, b.time, o); } else { StopKeepsUnqueued(s, u, b.task, o); }
  }

  lemma ArmKeepsUnqueued(s: Sys, thread: nat, armed: nat, time: nat, o: nat)
    requires Inv(s) && H.PcOf(s.h, thread) == H.Arming(armed) && Unqueued(s, o)
    ensures Unqueued(Arming(s, thread, armed, time), o)
  {
    hide Inv, H.NextStep, T.NextStart, Unqueued, H.Numbered, T.Recorded;
    ArmFacts(s, thread);
    ArmHelper(s.h, thread);
    UnqueuedIsArmed(s, o);
    StartKeepsUnqueued(s, Arming(s, thread, armed, time), TaskOf(armed), time, o);
  }

  lemma UnqueuedIsArmed(s: Sys, o: nat)
    requires Unqueued(s, o)
    ensures o < |s.h.ops| && s.h.ops[o].alarm != H.Unarmed
  {
  }

  lemma RingKeepsUnqueued(s: Sys, o: nat)
    requires Unqueued(s, o) && s.ringing.Some? && s.ringing.value < |s.h.ops|
    ensures Unqueued(s.(h := H.NextRing(s.h, s.ringing.value), ringing := None), o)
  {
  }

  lemma ShutdownKeepsUnqueued(s: Sys, o: nat)
    requires Unqueued(s, o)
    ensures Unqueued(s.(t := T.NextShutdown(s.t)), o)
  {
  }

  /** When I/O finishes an operation whose timer task has been started, the timer never finds that task due any more: it
      is out of the queue from then on. */
  lemma {:induction false} StoppedTaskIsNeverDue(kind: T.Kind, acts: seq<Action>, i: nat, o: nat)
    requires Legal(kind, acts) && i < |acts| && acts[i].StopAlarm? && Legal(kind, acts[..i])
    requires var s := Run(kind, acts[..i]);
             Stopping(H.PcOf(s.h, acts[i].thread)) == Some(o) && o < |s.h.ops| && s.h.ops[o].alarm != H.Unarmed
    ensures Unqueued(Run(kind, acts), o)
    decreases |acts|
  {
    hide Inv, Next, Enabled, Unqueued;
    var before, a := acts[..|acts| - 1], acts[|acts| - 1];
    if i < |acts| - 1 {
      assert before[..i] == acts[..i];
      StoppedTaskIsNeverDue(kind, before, i, o);
      StepKeepsUnqueued(Run(kind, before), a, o);
    } else {
      StopAlarmUnqueues(Run(kind, before), a.thread, o);
    }
  }

  lemma {:induction false} IntactStrandsNothing(kind: T.Kind, acts: seq<Action>)
    requires Legal(kind, acts) && Intact(kind, acts)
    ensures TR.Stranded(Run(kind, acts).t) == 0 && Run(kind, acts).t.kind == kind
    decreases |acts|
  {
    if acts != [] {
      IntactStrandsNothing(kind, acts[..|acts| - 1]);
      hide Inv, Next;
      StepStrandsNothing(Run(kind, acts[..|acts| - 1]), acts[|acts| - 1]);
    }
  }

  /** `Timer2` looks its keys up in the emptied map, so every run with it is intact. */
  lemma {:induction false} MapTimerStaysIntact(acts: seq<Action>)
    requires Legal(T.MapTimer, acts)
    ensures Intact(T.MapTimer, acts)
    decreases |acts|
  {
    if acts != [] {
      MapTimerStaysIntact(acts[..|acts| - 1]);
      IntactStrandsNothing(T.MapTimer, acts[..|acts| - 1]);
    }
  }

  lemma AllResumed(s: Sys, o: nat)
    requires Inv(s) && s.t.pc == T.Returned && TR.Stranded(s.t) == 0 && s.ringing == None
    requires HR.Quiet(s.h) && o < |s.h.ops|
    ensures s.h.ops[o].resumes == 1 && (s.h.ops[o].timeoutFlag <==> !s.h.ops[o].finishFlag)
  {
    hide Inv;
    NothingOwed(s, o);
    InvGives(s);
    HR.ResumedExactlyOnce(s.h, o);
    HR.ResumedAtMostOnce(s.h, o);
  }

  /** Whatever the interleaving of reads, writes, socket events, stops, timer callbacks and shutdowns, and whatever
      tasks of their own others start and stop on the same timer, once the timer's worker has returned and the helper
      is quiet, every operation that was ever submitted has been resumed exactly once.  With `Timer2` this is so on
      every run, with `Timer` on every run in which no StopTask comes between the drain swap and its record's turn. */
  lemma EveryOperationResumedExactlyOnce(kind: T.Kind, acts: seq<Action>, o: nat)
    requires Legal(kind, acts) && (kind == T.MapTimer || Intact(kind, acts))
    requires var s := Run(kind, acts);
             s.t.pc == T.Returned && s.ringing == None && HR.Quiet(s.h) && o < |s.h.ops|
    ensures var op := Run(kind, acts).h.ops[o];
            op.resumes == 1 && (op.timeoutFlag <==> !op.finishFlag)
  {
    hide *;
    if kind == T.MapTimer { MapTimerStaysIntact(acts); }
    IntactStrandsNothing(kind, acts);
    AllResumed(Run(kind, acts), o);
  }

  lemma InvGives(s: Sys)
    requires Inv(s)
    ensures HR.Reachable(s.h) && H.Inv(s.h)
  {
    hide H.Inv, T.Inv, HR.Reachable, Coupled;
  }

  /** A worker that has returned with nothing stranded owes no callback. */
  lemma NothingOwed(s: Sys, o: nat)
    requires Inv(s) && s.t.pc == T.Returned && TR.Stranded(s.t) == 0 && s.ringing == None && o < |s.h.ops|
    ensures s.h.ops[o].alarm != H.Armed
  {
    TimerOwesNothing(s);
    OwedParts(s);
    hide Inv, Owed;
  }

  lemma OwedParts(s: Sys)
    requires Inv(s)
    ensures forall o: nat | o < |s.h.ops| ::
              s.h.ops[o].alarm == H.Armed <==> TaskOf(o) in s.t.timerData || s.ringing == Some(o)
  {
    hide H.Inv, T.Inv, HR.Reachable, OneRecordEach, StoppedFinished;
  }

  lemma TimerOwesNothing(s: Sys)
    requires Inv(s) && s.t.pc == T.Returned && TR.Stranded(s.t) == 0
    ensures forall o :: o !in s.t.timerData
  {
    hide H.Inv, HR.Reachable, Coupled;
    ReturnedOwesNothing(s.t);
  }

  lemma ReturnedOwesNothing(t: T.State)
    requires T.Inv(t) && t.pc == T.Returned && TR.Stranded(t) == 0
    ensures forall o :: o !in t.timerData
  {
    TR.ReturnedInv(t);
    forall o ensures o !in t.timerData {
      if o in t.timerData { OwedWaits(t, o); }
    }
  }

  lemma OwedWaits(t: T.State, o: nat)
    requires T.Inv(t) && o in t.timerData
    ensures T.Waiting(t, t.timerData[o])
  {
  }

  /** A callback that reports a stop is for an operation that I/O has finished, so it times nothing out. */
  lemma StoppedHasFinished(kind: T.Kind, acts: seq<Action>, i: nat)
    requires Legal(kind, acts)
    requires var s := Run(kind, acts); i in s.t.stops || i in s.t.needStop
    ensures var s := Run(kind, acts);
            && i in s.t.records
            && (Own(s.t.records[i].task) ==>
                  var o := OpOf(s.t.records[i].task);
                  o < |s.h.ops| && s.h.ops[o].finishFlag && !s.h.ops[o].timeoutFlag)
  {
    StoppedParts(Run(kind, acts), i);
  }

  lemma StoppedParts(s: Sys, i: nat)
    requires Inv(s) && (i in s.t.stops || i in s.t.needStop)
    ensures i in s.t.records
    ensures Own(s.t.records[i].task) ==>
              var o := OpOf(s.t.records[i].task);
              o < |s.h.ops| && s.h.ops[o].finishFlag && !s.h.ops[o].timeoutFlag
  {
    assert T.Recorded(s.t) && i in s.t.records;
    var o := OpOf(s.t.records[i].task);
    assert o < |s.h.ops| ==> H.OpOk(s.h.ops[o]);
  }
}
