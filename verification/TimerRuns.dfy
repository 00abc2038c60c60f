/** What both timers promise over every run: any sequence of client calls and worker sections. */
module TimerRuns {
  import opened TimerSpec
  import opened Options

  ghost predicate Legal(s: State, acts: seq<Action>)
    requires Inv(s)
    decreases |acts|
  {
    hide Inv;
    acts != [] ==>
      && Enabled(s, acts[0])
      && (NextKeepsInv(s, acts[0]); Legal(Next(s, acts[0]), acts[1..]))
  }

  /** The state a run ends in; the invariant holds there. */
  ghost function Run(s: State, acts: seq<Action>): (t: State)
    requires Inv(s) && Legal(s, acts)
    ensures Inv(t)
    decreases |acts|
  {
    hide Inv;
    if acts == [] then s
    else
      NextKeepsInv(s, acts[0]);
      Run(Next(s, acts[0]), acts[1..])
  }

  /** The state before step `i` of a run. */
  ghost function StateAt(s: State, acts: seq<Action>, i: nat): (t: State)
    requires Inv(s) && Legal(s, acts) && i <= |acts|
    ensures Inv(t)
    decreases i
  {
    hide Inv;
    if i == 0 then s
    else
      NextKeepsInv(s, acts[0]);
      StateAt(Next(s, acts[0]), acts[1..], i - 1)
  }

  lemma {:induction false} RunAppend(s: State, a: seq<Action>, b: seq<Action>)
    requires Inv(s) && Legal(s, a) && Legal(Run(s, a), b)
    ensures Legal(s, a + b) && Run(s, a + b) == Run(Run(s, a), b)
    decreases |a|
  {
    hide Inv, Next, Enabled;
    if a == [] {
      assert a + b == b;
    } else {
      NextKeepsInv(s, a[0]);
      RunAppend(Next(s, a[0]), a[1..], b);
      assert (a + b)[1..] == a[1..] + b;
    }
  }

  lemma OneStep(s: State, a: Action)
    requires Inv(s) && Enabled(s, a)
    ensures Legal(s, [a]) && Run(s, [a]) == Next(s, a)
  {
    hide Inv;
    NextKeepsInv(s, a);
    assert [a][1..] == [];
  }

  lemma RunStep(s: State, acts: seq<Action>, a: Action)
    requires Inv(s) && Legal(s, acts) && Enabled(Run(s, acts), a)
    ensures Legal(s, acts + [a]) && Run(s, acts + [a]) == Next(Run(s, acts), a)
  {
    hide Inv;
    OneStep(Run(s, acts), a);
    RunAppend(s, acts, [a]);
  }

  /** Nothing is forgotten on a run: records stay as they are, callbacks stay logged, and the started records are
      numbered on from the first free number. */
  ghost predicate Keeps(s: State, t: State) {
    && (forall id | id in s.records :: id in t.records && t.records[id] == s.records[id])
    && s.log <= t.log && s.nextId <= t.nextId && s.kind == t.kind
  }

  lemma StepKeeps(s: State, a: Action)
    requires Recorded(s) && Enabled(s, a) && s.nextId !in s.records
    ensures Keeps(s, Next(s, a))
    ensures a.StartTask? ==> s.nextId in Next(s, a).records && Next(s, a).records[s.nextId] == Record(a.task, a.time)
  {
    hide Recorded, NextWork;
    if a.Work? { WorkKeeps(s, a.now, a.lead); }
  }

  lemma WorkKeeps(s: State, now: nat, lead: nat)
    requires Recorded(s) && s.pc != Returned
    ensures var t := NextWork(s, now, lead);
            t.records == s.records && t.nextId == s.nextId && t.kind == s.kind && s.log <= t.log
  {
    hide Recorded, Gather;
    GatherKeepsRecords(s, now, lead);
  }

  lemma GatherKeepsRecords(s: State, now: nat, lead: nat)
    requires Recorded(s)
    ensures var t := Gather(s, now, lead);
            t.records == s.records && t.nextId == s.nextId && t.kind == s.kind && s.log == t.log
  {
  }

  lemma FreshNumber(s: State)
    requires Inv(s)
    ensures s.nextId !in s.records
  {
  }

  lemma {:induction false} RunKeeps(s: State, acts: seq<Action>)
    requires Inv(s) && Legal(s, acts)
    ensures Keeps(s, Run(s, acts))
    decreases |acts|
  {
    hide Inv, Next, Recorded;
    if acts != [] {
      NextKeepsInv(s, acts[0]);
      FreshNumber(s);
      StepKeeps(s, acts[0]);
      RunKeeps(Next(s, acts[0]), acts[1..]);
    }
  }

  /** Every start of a run has its record at the end, and a record that was not there before it. */
  lemma {:induction false} StartsAreRecorded(s: State, acts: seq<Action>, i: nat)
    requires Inv(s) && Legal(s, acts) && i < |acts| && acts[i].StartTask?
    ensures var u, t := StateAt(s, acts, i), Run(s, acts);
            && u.nextId !in u.records
            && u.nextId in t.records && t.records[u.nextId] == Record(acts[i].task, acts[i].time)
    decreases |acts|
  {
    hide Inv, Next, Recorded;
    NextKeepsInv(s, acts[0]);
    if i == 0 {
      FreshNumber(s);
      StepKeeps(s, acts[0]);
      RunKeeps(Next(s, acts[0]), acts[1..]);
    } else {
      StartsAreRecorded(Next(s, acts[0]), acts[1..], i - 1);
    }
  }

  // ----- one callback per started record

  /** A StopTask that reaches a record the worker has already moved to its residue. */
  predicate DrainedStop(s: State, a: Action) {
    && a.StopTask?
    && a.task in s.timerData
    && s.timerData[a.task] !in s.tree
    && s.kind == TreeTimer
    && s.timerData[a.task] in s.residue
  }

  ghost function DrainedStops(s: State, acts: seq<Action>): nat
    requires Inv(s) && Legal(s, acts)
    decreases |acts|
  {
    hide Inv;
    if acts == [] then 0
    else
      NextKeepsInv(s, acts[0]);
      (if DrainedStop(s, acts[0]) then 1 else 0) + DrainedStops(Next(s, acts[0]), acts[1..])
  }

  function Stranded(s: State): nat {
    if AfterSwap(s.pc) then |s.stops| else 0
  }

  lemma StrandedStep(s: State, a: Action)
    requires Recorded(s) && Phase(s) && Enabled(s, a)
    ensures Stranded(Next(s, a)) == Stranded(s) + if DrainedStop(s, a) then 1 else 0
    ensures Next(s, a).kind == s.kind
  {
  }

  lemma {:induction false} StrandedRun(s: State, acts: seq<Action>)
    requires Inv(s) && Legal(s, acts)
    ensures Stranded(Run(s, acts)) == Stranded(s) + DrainedStops(s, acts)
    ensures Run(s, acts).kind == s.kind
    decreases |acts|
  {
    assert Phase(s);
    hide Inv;
    if acts != [] {
      NextKeepsInv(s, acts[0]);
      StrandedStep(s, acts[0]);
      StrandedRun(Next(s, acts[0]), acts[1..]);
    }
  }

  /** At any moment no record has been called back twice, and nothing else has been called back. */
  lemma AtMostOnce(kind: Kind, acts: seq<Action>)
    requires Inv(Init(kind)) && Legal(Init(kind), acts)
    ensures var t := Run(Init(kind), acts);
            forall id :: Fired(t.log)[id] <= if id in t.records then 1 else 0
  {
    var t := Run(Init(kind), acts);
    forall id ensures Fired(t.log)[id] <= if id in t.records then 1 else 0 {
      assert Held(t, id) + Fired(t.log)[id] == if id in t.records then 1 else 0;
    }
  }

  lemma ReturnedCounts(t: State, id: nat)
    requires Conserved(t) && t.needExecute == t.needStop == t.tree == t.residue == [] && id in t.records
    ensures Fired(t.log)[id] == if id in t.stops then 0 else 1
  {
    assert Held(t, id) + Fired(t.log)[id] == 1;
    assert Held(t, id) == multiset(t.stops)[id];
  }

  lemma ReturnedInv(t: State)
    requires Inv(t) && t.pc == Returned
    ensures Conserved(t) && t.needExecute == t.needStop == t.tree == t.residue == []
    ensures t.kind == MapTimer ==> t.stops == []
    ensures t.stops != [] ==> t.stops[0] in t.records
  {
  }

  ghost predicate AllCalledBack(t: State) {
    forall id | id in t.records :: Fired(t.log)[id] == 1
  }

  /** From any state in which no stop request is stranded, a run to the worker's return has called every record back
      exactly once if and only if no StopTask reached a record in the residue. */
  lemma ReturnsExactly(s: State, acts: seq<Action>)
    requires Inv(s) && Legal(s, acts) && Stranded(s) == 0
    requires Run(s, acts).pc == Returned
    ensures AllCalledBack(Run(s, acts)) <==> DrainedStops(s, acts) == 0
    ensures s.kind == MapTimer ==> DrainedStops(s, acts) == 0
  {
    var t := Run(s, acts);
    StrandedRun(s, acts);
    ReturnedInv(t);
    hide Inv, Run, Legal, DrainedStops, Conserved, Fired;
    forall id | id in t.records ensures Fired(t.log)[id] == if id in t.stops then 0 else 1 {
      ReturnedCounts(t, id);
    }
    if t.stops != [] { assert Fired(t.log)[t.stops[0]] == 0; }
  }

  /** When the worker has returned, every started record has been called back exactly once if and only if no StopTask
      reached a record in the residue.  `Timer2` never allows one. */
  lemma ExactlyOnce(kind: Kind, acts: seq<Action>)
    requires Inv(Init(kind)) && Legal(Init(kind), acts)
    requires Run(Init(kind), acts).pc == Returned
    ensures AllCalledBack(Run(Init(kind), acts)) <==> DrainedStops(Init(kind), acts) == 0
    ensures kind == MapTimer ==> DrainedStops(Init(kind), acts) == 0
  {
    hide Inv;
    ReturnsExactly(Init(kind), acts);
  }

  /** `Timer` can lose a callback: of two queued tasks the later one is stopped between the drain swap and its turn. */
  lemma StopDuringDrainLosesCallback()
    ensures var acts := [StartTask(7, 100), StartTask(8, 200), Work(0, 5), Shutdown, Work(1, 5), Work(1, 5),
                         StopTask(8), Work(2, 5), Work(3, 5)];
            && Inv(Init(TreeTimer))
            && Legal(Init(TreeTimer), acts)
            && Run(Init(TreeTimer), acts).pc == Returned
            && Run(Init(TreeTimer), acts).records == TwoRecords
            && Run(Init(TreeTimer), acts).log == [Delivery(1, TimerStop)]
  {
    hide *;
    InitInv(TreeTimer);
    FlattenRun();
    FirstSteps();
    var s1 := Next(Init(TreeTimer), StartTask(7, 100));
    var s2 := Next(s1, StartTask(8, 200));
    LostAfterShutdown();
    Prepend(s2, Work(0, 5), [Shutdown, Work(1, 5), Work(1, 5), StopTask(8), Work(2, 5), Work(3, 5)]);
    Prepend(s1, StartTask(8, 200), [Work(0, 5), Shutdown, Work(1, 5), Work(1, 5), StopTask(8), Work(2, 5), Work(3, 5)]);
    Prepend(Init(TreeTimer), StartTask(7, 100),
            [StartTask(8, 200), Work(0, 5), Shutdown, Work(1, 5), Work(1, 5), StopTask(8), Work(2, 5), Work(3, 5)]);
  }

  lemma FlattenRun()
    ensures [StartTask(7, 100)]
            + [StartTask(8, 200), Work(0, 5), Shutdown, Work(1, 5), Work(1, 5), StopTask(8), Work(2, 5), Work(3, 5)]
            == [StartTask(7, 100), StartTask(8, 200), Work(0, 5), Shutdown, Work(1, 5), Work(1, 5),
                StopTask(8), Work(2, 5), Work(3, 5)]
    ensures [StartTask(8, 200)] + [Work(0, 5), Shutdown, Work(1, 5), Work(1, 5), StopTask(8), Work(2, 5), Work(3, 5)]
            == [StartTask(8, 200), Work(0, 5), Shutdown, Work(1, 5), Work(1, 5), StopTask(8), Work(2, 5), Work(3, 5)]
    ensures [Work(0, 5)] + [Shutdown, Work(1, 5), Work(1, 5), StopTask(8), Work(2, 5), Work(3, 5)]
            == [Work(0, 5), Shutdown, Work(1, 5), Work(1, 5), StopTask(8), Work(2, 5), Work(3, 5)]
  {
  }

  const TwoRecords: map<nat, Record> := map[1 := Record(7, 100), 2 := Record(8, 200)]

  const OneQueued: State :=
    Init(TreeTimer).(nextId := 2, records := map[1 := Record(7, 100)], timerData := map[7 := 1], tree := [1])

  const TwoQueued: State :=
    Init(TreeTimer).(nextId := 3, records := TwoRecords, timerData := map[7 := 1, 8 := 2], tree := [1, 2], pc := Firing)

  lemma FirstSteps()
    requires Inv(Init(TreeTimer))
    ensures var s0 := Init(TreeTimer);
            && Enabled(s0, StartTask(7, 100)) && Inv(Next(s0, StartTask(7, 100)))
            && var s1 := Next(s0, StartTask(7, 100));
            && Enabled(s1, StartTask(8, 200)) && Inv(Next(s1, StartTask(8, 200)))
            && var s2 := Next(s1, StartTask(8, 200));
            && Enabled(s2, Work(0, 5)) && Inv(Next(s2, Work(0, 5))) && Next(s2, Work(0, 5)) == TwoQueued
  {
    hide Inv, Next, Enabled;
    FirstStart();
    SecondStart();
    NothingDueYet();
    Follow(Init(TreeTimer), StartTask(7, 100), OneQueued);
    Follow(OneQueued, StartTask(8, 200), TwoQueued.(pc := Starting));
    Follow(TwoQueued.(pc := Starting), Work(0, 5), TwoQueued);
  }

  lemma FirstStart()
    ensures Enabled(Init(TreeTimer), StartTask(7, 100)) && Next(Init(TreeTimer), StartTask(7, 100)) == OneQueued
  {
  }

  lemma SecondStart()
    ensures Enabled(OneQueued, StartTask(8, 200))
    ensures Recorded(OneQueued) ==> Next(OneQueued, StartTask(8, 200)) == TwoQueued.(pc := Starting)
  {
    assert OneQueued.tree[1..] == [];
  }

  lemma NothingDueYet()
    ensures var s := TwoQueued.(pc := Starting);
            Enabled(s, Work(0, 5)) && (Recorded(s) ==> Next(s, Work(0, 5)) == TwoQueued)
  {
    var s := TwoQueued.(pc := Starting);
    assert s.due + (map id: nat | id in s.tree[..0] :: 5) == s.due;
  }

  lemma LostAfterShutdown()
    requires Inv(TwoQueued)
    ensures var acts := [Shutdown, Work(1, 5), Work(1, 5), StopTask(8), Work(2, 5), Work(3, 5)];
            && Legal(TwoQueued, acts) && Run(TwoQueued, acts).pc == Returned
            && Run(TwoQueued, acts).records == TwoRecords && Run(TwoQueued, acts).log == [Delivery(1, TimerStop)]
  {
    hide Inv, Legal, Run;
    var s3 := TwoQueued.(run := false);
    var s4 := s3.(pc := Leaving);
    var s5 := s4.(pc := Draining, tree := [], residue := [1, 2]);
    Follow(TwoQueued, Shutdown, s3);
    Follow(s3, Work(1, 5), s4);
    Follow(s4, Work(1, 5), s5);
    LostInDrain(s5);
    FlattenDrain();
    Prepend(s4, Work(1, 5), [StopTask(8), Work(2, 5), Work(3, 5)]);
    Prepend(s3, Work(1, 5), [Work(1, 5), StopTask(8), Work(2, 5), Work(3, 5)]);
    Prepend(TwoQueued, Shutdown, [Work(1, 5), Work(1, 5), StopTask(8), Work(2, 5), Work(3, 5)]);
  }

  lemma FlattenDrain()
    ensures [Work(1, 5)] + [StopTask(8), Work(2, 5), Work(3, 5)] == [Work(1, 5), StopTask(8), Work(2, 5), Work(3, 5)]
    ensures [Work(1, 5)] + [Work(1, 5), StopTask(8), Work(2, 5), Work(3, 5)]
            == [Work(1, 5), Work(1, 5), StopTask(8), Work(2, 5), Work(3, 5)]
    ensures [Shutdown] + [Work(1, 5), Work(1, 5), StopTask(8), Work(2, 5), Work(3, 5)]
            == [Shutdown, Work(1, 5), Work(1, 5), StopTask(8), Work(2, 5), Work(3, 5)]
    ensures [StopTask(8)] + [Work(2, 5), Work(3, 5)] == [StopTask(8), Work(2, 5), Work(3, 5)]
    ensures [Work(2, 5)] + [Work(3, 5)] == [Work(2, 5), Work(3, 5)] && [Work(3, 5)] + [] == [Work(3, 5)]
  {
  }

  lemma LostInDrain(s5: State)
    requires Inv(s5)
    requires s5 == TwoQueued.(tree := [], residue := [1, 2], pc := Draining, run := false)
    ensures var acts := [StopTask(8), Work(2, 5), Work(3, 5)];
            && Legal(s5, acts) && Run(s5, acts).pc == Returned
            && Run(s5, acts).records == TwoRecords && Run(s5, acts).log == [Delivery(1, TimerStop)]
  {
    hide *;
    DrainSteps(s5);
    FlattenDrain();
    var s6 := Next(s5, StopTask(8));
    var s7 := Next(s6, Work(2, 5));
    var s8 := Next(s7, Work(3, 5));
    NoSteps(s8);
    Prepend(s7, Work(3, 5), []);
    Prepend(s6, Work(2, 5), [Work(3, 5)]);
    Prepend(s5, StopTask(8), [Work(2, 5), Work(3, 5)]);
  }

  lemma NoSteps(s: State)
    requires Inv(s)
    ensures Legal(s, []) && Run(s, []) == s
  {
  }

  lemma DrainSteps(s5: State)
    requires Inv(s5)
    requires s5 == TwoQueued.(tree := [], residue := [1, 2], pc := Draining, run := false)
    ensures Enabled(s5, StopTask(8)) && Inv(Next(s5, StopTask(8)))
    ensures var s6 := Next(s5, StopTask(8));
            && Enabled(s6, Work(2, 5)) && Inv(Next(s6, Work(2, 5)))
            && var s7 := Next(s6, Work(2, 5));
            && Enabled(s7, Work(3, 5)) && Inv(Next(s7, Work(3, 5)))
            && var s8 := Next(s7, Work(3, 5));
            && s8.pc == Returned && s8.records == TwoRecords && s8.log == [Delivery(1, TimerStop)]
  {
    hide Inv;
    var s6 := s5.(residue := [1], stops := [2]);
    var s7 := s6.(residue := [], timerData := map[8 := 2], log := [Delivery(1, TimerStop)]);
    StopSecond(s5);
    Follow(s5, StopTask(8), s6);
    FirstIsCalledBack(s6);
    Follow(s6, Work(2, 5), s7);
    Follow(s7, Work(3, 5), s7.(pc := Returned));
  }

  lemma FirstIsCalledBack(s: State)
    requires Recorded(s) && s.pc == Draining && s.needStop == [] && s.residue == [1] && s.records == TwoRecords
    requires s.timerData == map[7 := 1, 8 := 2] && s.log == []
    ensures NextWork(s, 2, 5) == s.(residue := [], timerData := map[8 := 2], log := [Delivery(1, TimerStop)])
  {
    assert s.timerData - {7} == map[8 := 2];
  }

  lemma StopSecond(s: State)
    requires s.residue == [1, 2]
    ensures Without(s.residue, 2) == [1]
  {
    assert s.residue[1..] == [2] && [2][1..] == [];
  }

  lemma Follow(s: State, a: Action, t: State)
    requires Inv(s) && Enabled(s, a) && Next(s, a) == t
    ensures Inv(t)
  {
    hide Inv;
    NextKeepsInv(s, a);
  }

  lemma Prepend(s: State, a: Action, acts: seq<Action>)
    requires Inv(s) && Enabled(s, a) && Inv(Next(s, a)) && Legal(Next(s, a), acts)
    ensures Legal(s, [a] + acts) && Run(s, [a] + acts) == Run(Next(s, a), acts)
  {
    hide Inv;
    assert ([a] + acts)[1..] == acts;
  }

  // ----- what a result means

  /** A record becomes `stopped` exactly by a StopTask on its own task while it is queued. */
  lemma StoppedMeansStopRequest(s: State, a: Action, id: nat)
    requires Recorded(s) && Linked(s) && Enabled(s, a) && id !in s.stopped
    ensures id in Next(s, a).stopped <==> id in s.tree && a == StopTask(s.records[id].task)
  {
    hide Recorded, Linked, Next, Enabled;
    StopMarks(s, a, id);
  }

  /** A record becomes `due` exactly by a gather that finds it queued and within its deadline. */
  lemma DueMeansGathered(s: State, now: nat, lead: nat, id: nat)
    requires Recorded(s) && Ordered(s.records, s.tree) && id !in s.due
    ensures var t := Gather(s, now, lead);
            && (id in t.due <==> id in s.tree && IsDue(s.kind, id, s.records[id].time, Wrap(now + lead)))
            && (id in t.due ==> t.due[id] == Wrap(now + lead))
  {
    var deadline := Wrap(now + lead);
    var k := DueCount(s.kind, s.records, s.tree, deadline);
    DueCountSplits(s.kind, s.records, s.tree, deadline);
    if id in s.tree {
      var i :| 0 <= i < |s.tree| && s.tree[i] == id;
      if IsDue(s.kind, id, s.records[id].time, deadline) { assert s.tree[..k][i] == id; }
    }
    if id in s.tree[..k] {
      var i :| 0 <= i < k && s.tree[..k][i] == id;
      assert s.tree[i] == id;
    }
  }

  /** Where the worker's next section gathers. */
  predicate Gathers(s: State) {
    match s.pc
    case Starting => true
    case Firing => s.needExecute == s.needStop == [] && s.run && s.stops != []
    case Sleeping(_, _, _) => s.run
    case _ => false
  }

  /** Outside those sections the worker makes no record due. */
  lemma DueOnlyByGather(s: State, now: nat, lead: nat)
    requires Recorded(s) && s.pc != Returned
    ensures if Gathers(s) then NextWork(s, now, lead) == Gather(s, now, lead) else NextWork(s, now, lead).due == s.due
  {
    hide Gather, Recorded;
  }

  /** The step that, in this state, hands the queued record to the worker as due. */
  ghost predicate GathersDue(s: State, a: Action, id: nat)
    requires Recorded(s)
  {
    && a.Work? && Gathers(s)
    && id in s.tree && IsDue(s.kind, id, s.records[id].time, Wrap(a.now + a.lead))
  }

  /** The step that, in this state, stops the queued record. */
  ghost predicate StopsQueued(s: State, a: Action, id: nat)
    requires Recorded(s)
  {
    a.StopTask? && id in s.tree && s.records[id].task == a.task
  }

  lemma InvParts(s: State)
    requires Inv(s)
    ensures Recorded(s) && Linked(s) && Ordered(s.records, s.tree) && Phase(s)
  {
  }

  lemma StepMarks(s: State, a: Action, id: nat)
    requires Inv(s) && Enabled(s, a)
    ensures id in Next(s, a).due <==> id in s.due || GathersDue(s, a, id)
    ensures id in Next(s, a).stopped <==> id in s.stopped || StopsQueued(s, a, id)
    ensures Next(s, a).run <==> s.run && a != Shutdown
  {
    hide *;
    InvParts(s);
    StopMarks(s, a, id);
    DueMarks(s, a, id);
  }

  lemma StopMarks(s: State, a: Action, id: nat)
    requires Recorded(s) && Linked(s) && Enabled(s, a)
    ensures id in Next(s, a).stopped <==> id in s.stopped || StopsQueued(s, a, id)
    ensures Next(s, a).run <==> s.run && a != Shutdown
  {
    hide Recorded, Linked, NextWork, NextStop;
    match a
    case StartTask(task, time) =>
    case StopTask(task) => StopTaskMarks(s, task, id);
    case Shutdown =>
    case Work(now, lead) => WorkStopsNothing(s, now, lead);
  }

  lemma StopTaskMarks(s: State, task: nat, id: nat)
    requires Recorded(s) && Linked(s)
    ensures id in NextStop(s, task).stopped <==> id in s.stopped || (id in s.tree && s.records[id].task == task)
    ensures NextStop(s, task).run == s.run
  {
    assert id in s.tree ==> Waiting(s, id);
  }

  lemma WorkStopsNothing(s: State, now: nat, lead: nat)
    requires Recorded(s) && s.pc != Returned
    ensures NextWork(s, now, lead).stopped == s.stopped && NextWork(s, now, lead).run == s.run
  {
    hide Recorded, Gather, Fire;
    GatherStopsNothing(s, now, lead);
    FireStopsNothing(s);
  }

  lemma GatherStopsNothing(s: State, now: nat, lead: nat)
    requires Recorded(s)
    ensures Gather(s, now, lead).stopped == s.stopped && Gather(s, now, lead).run == s.run
  {
    hide Recorded;
  }

  lemma FireStopsNothing(s: State)
    requires Recorded(s)
    ensures forall outcome | CanFire(s, outcome) ::
              Fire(s, outcome).stopped == s.stopped && Fire(s, outcome).run == s.run
  {
    hide Recorded;
  }

  lemma DueMarks(s: State, a: Action, id: nat)
    requires Recorded(s) && Ordered(s.records, s.tree) && Enabled(s, a)
    ensures id in Next(s, a).due <==> id in s.due || GathersDue(s, a, id)
  {
    hide Recorded, Ordered, Gather, NextWork, NextStart, NextStop, NextShutdown, Gathers, IsDue;
    if a.Work? {
      DueOnlyByGather(s, a.now, a.lead);
      GatherMarks(s, a.now, a.lead, id);
    } else {
      ClientsMarkNothing(s, a);
    }
  }

  lemma ClientsMarkNothing(s: State, a: Action)
    requires Recorded(s) && Enabled(s, a) && !a.Work?
    ensures Next(s, a).due == s.due
  {
    hide Recorded;
  }

  lemma GatherMarks(s: State, now: nat, lead: nat, id: nat)
    requires Recorded(s) && Ordered(s.records, s.tree)
    ensures id in Gather(s, now, lead).due <==>
            id in s.due || (id in s.tree && IsDue(s.kind, id, s.records[id].time, Wrap(now + lead)))
  {
    if id !in s.due { DueMeansGathered(s, now, lead, id); }
  }

  /** What marks a record carries at the end of a run is what some step of the run did to it. */
  lemma {:induction false} MarksOfRun(s: State, acts: seq<Action>, id: nat)
    requires Inv(s) && Legal(s, acts)
    ensures id in Run(s, acts).due <==>
            id in s.due || exists i | 0 <= i < |acts| :: GathersDue(StateAt(s, acts, i), acts[i], id)
    ensures id in Run(s, acts).stopped <==>
            id in s.stopped || exists i | 0 <= i < |acts| :: StopsQueued(StateAt(s, acts, i), acts[i], id)
    ensures Run(s, acts).run <==> s.run && Shutdown !in acts
    decreases |acts|
  {
    hide Inv, Next, Recorded;
    if acts != [] {
      NextKeepsInv(s, acts[0]);
      var u, rest := Next(s, acts[0]), acts[1..];
      StepMarks(s, acts[0], id);
      MarksOfRun(u, rest, id);
      assert acts == [acts[0]] + rest;
      assert StateAt(s, acts, 0) == s;
      forall i | 0 <= i < |rest| ensures StateAt(u, rest, i) == StateAt(s, acts, i + 1) && rest[i] == acts[i + 1] {}
      forall i | 0 < i < |acts| ensures StateAt(u, rest, i - 1) == StateAt(s, acts, i) && rest[i - 1] == acts[i] {}
    }
  }

  /** Each callback's result says what the run did to its record: success exactly if some gather found the record
      queued and due, a task stop exactly if some StopTask on the record's own task found it queued, and a timer
      stop only after a shutdown. */
  lemma OutcomeMeansHistory(kind: Kind, acts: seq<Action>, d: Delivery)
    requires Inv(Init(kind)) && Legal(Init(kind), acts)
    requires d in Run(Init(kind), acts).log
    ensures d.id in Run(Init(kind), acts).records
    ensures d.outcome == Success <==>
            exists i | 0 <= i < |acts| :: GathersDue(StateAt(Init(kind), acts, i), acts[i], d.id)
    ensures d.outcome == TaskStop <==>
            exists i | 0 <= i < |acts| :: StopsQueued(StateAt(Init(kind), acts, i), acts[i], d.id)
    ensures d.outcome == TimerStop ==> Shutdown in acts
  {
    StrandedRun(Init(kind), acts);
    assert DeliveryJustified(Run(Init(kind), acts), d);
    MarksOfRun(Init(kind), acts, d.id);
  }

  // ----- gathering

  /** A gather takes exactly the due records, earliest first and first-started first among equals,
      leaves the others in place, and takes over every pending stop request. */
  lemma GatherExact(s: State, now: nat, lead: nat)
    requires Recorded(s) && Ordered(s.records, s.tree) && s.needExecute == s.needStop == []
    ensures var t := Gather(s, now, lead);
            && s.tree == t.needExecute + t.tree
            && (forall i | 0 <= i < |s.tree| ::
                  i < |t.needExecute| <==> IsDue(s.kind, s.tree[i], s.records[s.tree[i]].time, Wrap(now + lead)))
            && (forall i, j | 0 <= i < j < |t.needExecute| ::
                  Before(s.records, t.needExecute[i], t.needExecute[j]))
            && t.needStop == s.stops && t.stops == []
  {
    var t := Gather(s, now, lead);
    var k := DueCount(s.kind, s.records, s.tree, Wrap(now + lead));
    DueCountSplits(s.kind, s.records, s.tree, Wrap(now + lead));
    assert t.needExecute == s.tree[..k];
    forall i, j | 0 <= i < j < |t.needExecute| ensures Before(s.records, t.needExecute[i], t.needExecute[j]) {
      assert Before(s.records, s.tree[i], s.tree[j]);
    }
  }

  // ----- sleeping

  /** The 64-bit wait ends at the deadline exactly when the two instants are less than 2^63 apart. */
  lemma WakeInstantExact(time: nat, now: nat)
    requires time < TWO64 && now < TWO64
    ensures WakeInstant(time, now) == time <==> -(TWO63 as int) <= time - now < TWO63
  {
    if time >= now {
      assert Wrap(time - now) == time - now;
    } else {
      assert Wrap(time - now) == time - now + TWO64;
    }
  }

  /** No wake-up is lost: while the worker sleeps and nobody has notified it, no stop request and no batch
      is pending, it has no bound only if nothing is queued, and its bound is set for the earliest record. */
  lemma SleepsSoundly(kind: Kind, acts: seq<Action>)
    requires Inv(Init(kind)) && Legal(Init(kind), acts)
    ensures var t := Run(Init(kind), acts);
            t.pc.Sleeping? && !t.pc.notified ==>
              && t.run
              && t.stops == t.needExecute == t.needStop == []
              && (t.pc.wakeBy == None <==> t.tree == [])
              && (t.tree != [] ==>
                    && (forall id | id in t.tree :: t.records[t.tree[0]].time <= t.records[id].time)
                    && t.pc.wakeBy == Some(WakeInstant(t.records[t.tree[0]].time, t.pc.since)))
  {
    var t := Run(Init(kind), acts);
    if t.pc.Sleeping? && !t.pc.notified && t.tree != [] {
      forall id | id in t.tree ensures t.records[t.tree[0]].time <= t.records[id].time {
        var i :| 0 <= i < |t.tree| && t.tree[i] == id;
        assert i > 0 ==> Before(t.records, t.tree[0], t.tree[i]);
      }
    }
  }

  // ----- the worker returns

  function Undelivered(s: State): nat {
    if AfterSwap(s.pc) then |s.needStop| + |s.residue|
    else |s.tree| + |s.stops| + |s.needExecute| + |s.needStop| + |s.residue|
  }

  /** How many worker sections are left at most once the timer is shut down. */
  function WorkLeft(s: State): nat {
    Undelivered(s)
    + match s.pc
      case Starting => 4
      case Firing => 3
      case Sleeping(_, _, _) => 3
      case Leaving => 2
      case Draining => 1
      case Returned => 0
  }

  lemma WithoutShorter(q: seq<nat>, id: nat)
    ensures id in q ==> |Without(q, id)| == |q| - 1
  {
  }

  lemma WorkLeftStep(s: State, a: Action)
    requires Recorded(s) && Phase(s) && Enabled(s, a) && !s.run
    ensures WorkLeft(Next(s, a)) + (if a.Work? then 1 else 0) <= WorkLeft(s)
    ensures !Next(s, a).run
  {
    if a.StopTask? && a.task in s.timerData {
      WithoutShorter(s.tree, s.timerData[a.task]);
      WithoutShorter(s.residue, s.timerData[a.task]);
    }
  }

  function WorkSections(acts: seq<Action>): nat {
    if acts == [] then 0 else (if acts[0].Work? then 1 else 0) + WorkSections(acts[1..])
  }

  /** After a shutdown the worker returns: if it sleeps it has been notified, and it cannot take more than
      `WorkLeft` sections, however the clients interleave with it. */
  lemma {:induction false} WorkerReturns(s: State, acts: seq<Action>)
    requires Inv(s) && !s.run && Legal(s, acts)
    ensures WorkSections(acts) <= WorkLeft(s)
    ensures WorkSections(acts) == WorkLeft(s) ==> Run(s, acts).pc == Returned
    ensures Run(s, acts).pc.Sleeping? ==> Run(s, acts).pc.notified
    decreases |acts|
  {
    if acts != [] {
      assert Phase(s);
      hide Inv;
      NextKeepsInv(s, acts[0]);
      WorkLeftStep(s, acts[0]);
      WorkerReturns(Next(s, acts[0]), acts[1..]);
    }
  }
}
