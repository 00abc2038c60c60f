/** In what order a timer's worker calls back what it has gathered or drained. */
module TimerOrder {
  import opened TimerSpec
  import opened TimerRuns

  /** The callbacks that give these records this result, in this order. */
  function Callbacks(ids: seq<nat>, outcome: Outcome): (ds: seq<Delivery>)
    ensures |ds| == |ids|
  {
    seq(|ids|, i requires 0 <= i < |ids| => Delivery(ids[i], outcome))
  }

  /** What the worker has in hand, in the order in which it is due to call it back. */
  function Plan(s: State): seq<Delivery> {
    Callbacks(s.needExecute, Success) + Callbacks(s.needStop, TaskStop) + Callbacks(s.residue, TimerStop)
  }

  // ----- one step

  lemma NoCallbacks(ids: seq<nat>, outcome: Outcome)
    ensures ids == [] <==> Callbacks(ids, outcome) == []
  {
  }

  lemma FirstCallback(ids: seq<nat>, outcome: Outcome)
    requires ids != []
    ensures Callbacks(ids, outcome) == [Delivery(ids[0], outcome)] + Callbacks(ids[1..], outcome)
  {
  }

  lemma PlanParts(s: State)
    ensures s.needExecute == s.needStop == [] ==> Plan(s) == Callbacks(s.residue, TimerStop)
    ensures s.needExecute == s.residue == [] ==> Plan(s) == Callbacks(s.needStop, TaskStop)
    ensures s.residue == [] ==> Plan(s) == Callbacks(s.needExecute, Success) + Callbacks(s.needStop, TaskStop)
    ensures s.needExecute == [] ==> Plan(s) == Callbacks(s.needStop, TaskStop) + Callbacks(s.residue, TimerStop)
    ensures Plan(s) == [] <==> s.needExecute == s.needStop == s.residue == []
  {
    assert forall o :: Callbacks([], o) == [];
  }

  lemma FirePlan(s: State, outcome: Outcome)
    requires Recorded(s) && CanFire(s, outcome)
    requires outcome == TaskStop ==> s.needExecute == []
    requires outcome == TimerStop ==> s.needExecute == s.needStop == []
    ensures Plan(s) != [] && Fire(s, outcome).log == s.log + [Plan(s)[0]] && Plan(Fire(s, outcome)) == Plan(s)[1..]
  {
    hide Recorded, Callbacks;
    PlanParts(s);
    PlanParts(Fire(s, outcome));
    match outcome
    case Success => FirstCallback(s.needExecute, Success);
    case TaskStop => FirstCallback(s.needStop, TaskStop);
    case TimerStop => FirstCallback(s.residue, TimerStop);
  }

  /** While there is something in hand, the worker's next section calls back the first of it; otherwise none. */
  lemma WorkFollowsPlan(s: State, now: nat, lead: nat)
    requires Recorded(s) && Phase(s) && s.pc != Returned
    ensures var t := NextWork(s, now, lead);
            if Plan(s) != [] then t.log == s.log + [Plan(s)[0]] && Plan(t) == Plan(s)[1..] else t.log == s.log
  {
    hide Recorded, Fire, Gather, Plan;
    PlanParts(s);
    NoCallbacks(s.residue, TimerStop);
    GatherKeepsRecords(s, now, lead);
    if s.needExecute != [] {
      FirePlan(s, Success);
    } else if s.needStop != [] {
      FirePlan(s, TaskStop);
    } else if s.residue != [] {
      FirePlan(s, TimerStop);
    }
  }

  lemma CallsLeavePlan(s: State, a: Action)
    requires Recorded(s) && Enabled(s, a) && !a.Work? && !DrainedStop(s, a)
    ensures Next(s, a).log == s.log && Plan(Next(s, a)) == Plan(s)
  {
    hide Recorded;
  }

  /** A batch: the due records of the queue, earliest first and first-started first among equals. */
  ghost predicate IsBatch(s: State, deadline: nat, batch: seq<nat>)
    requires Recorded(s)
  {
    && (forall id :: id in batch <==> id in s.tree && IsDue(s.kind, id, s.records[id].time, deadline))
    && (forall i, j | 0 <= i < j < |batch| :: Before(s.records, batch[i], batch[j]))
  }

  lemma GatherPlan(s: State, now: nat, lead: nat)
    requires Recorded(s) && Ordered(s.records, s.tree) && Phase(s) && s.pc != Returned && Gathers(s)
    ensures var t := NextWork(s, now, lead);
            && t.log == s.log && Plan(t) == Callbacks(t.needExecute, Success) + Callbacks(s.stops, TaskStop)
            && IsBatch(s, Wrap(now + lead), t.needExecute)
  {
    var t := NextWork(s, now, lead);
    DueOnlyByGather(s, now, lead);
    GatherExact(s, now, lead);
    GatherKeepsRecords(s, now, lead);
    PlanParts(t);
    BatchMembers(s, t.needExecute, t.tree, Wrap(now + lead));
  }

  lemma BatchMembers(s: State, batch: seq<nat>, rest: seq<nat>, deadline: nat)
    requires Recorded(s) && s.tree == batch + rest
    requires forall i | 0 <= i < |s.tree| ::
               i < |batch| <==> IsDue(s.kind, s.tree[i], s.records[s.tree[i]].time, deadline)
    ensures forall id :: id in batch <==> id in s.tree && IsDue(s.kind, id, s.records[id].time, deadline)
  {
    hide IsDue;
    forall id ensures id in batch <==> id in s.tree && IsDue(s.kind, id, s.records[id].time, deadline) {
      if id in batch {
        var i :| 0 <= i < |batch| && batch[i] == id;
        assert s.tree[i] == id;
      }
      if id in s.tree {
        var i :| 0 <= i < |s.tree| && s.tree[i] == id;
        assert i < |batch| ==> batch[i] == id;
      }
    }
  }

  lemma DrainPlan(s: State, now: nat, lead: nat)
    requires Recorded(s) && Phase(s) && s.pc.Leaving?
    ensures var t := NextWork(s, now, lead);
            && t.log == s.log && Plan(t) == Callbacks(s.stops, TaskStop) + Callbacks(s.tree, TimerStop)
  {
    hide Recorded;
    PlanParts(NextWork(s, now, lead));
  }

  // ----- over runs

  lemma {:induction false} StateAfterStep(s: State, acts: seq<Action>, i: nat)
    requires Inv(s) && Legal(s, acts) && i < |acts|
    ensures Enabled(StateAt(s, acts, i), acts[i])
    ensures StateAt(s, acts, i + 1) == Next(StateAt(s, acts, i), acts[i])
    decreases i
  {
    hide Inv, Next, Enabled;
    NextKeepsInv(s, acts[0]);
    if i > 0 {
      StateAfterStep(Next(s, acts[0]), acts[1..], i - 1);
    } else {
      assert StateAt(Next(s, acts[0]), acts[1..], 0) == Next(s, acts[0]);
    }
  }

  /** Step `i` is a section of the worker that calls nothing back. */
  ghost predicate Tests(s: State, acts: seq<Action>, i: nat)
    requires Inv(s) && Legal(s, acts) && i < |acts|
  {
    acts[i].Work? && StateAt(s, acts, i + 1).log == StateAt(s, acts, i).log
  }

  /** From step `i` to step `j` the worker does nothing but call back, and nothing is taken out of its hands. */
  ghost predicate Undivided(s: State, acts: seq<Action>, i: nat, j: nat)
    requires Inv(s) && Legal(s, acts) && j <= |acts|
  {
    forall k: nat | i <= k < j :: !Tests(s, acts, k) && !DrainedStop(StateAt(s, acts, k), acts[k])
  }

  lemma WorkCarries(u: State, now: nat, lead: nat)
    requires Recorded(u) && Phase(u) && u.pc != Returned
    ensures var t := NextWork(u, now, lead);
            if Plan(u) == [] then t.log == u.log else t.log + Plan(t) == u.log + Plan(u) && t.log != u.log
  {
    hide Plan, NextWork, Recorded, Phase;
    WorkFollowsPlan(u, now, lead);
    if Plan(u) != [] { assert Plan(u) == [Plan(u)[0]] + Plan(u)[1..]; }
  }

  lemma StepCarries(u: State, a: Action)
    requires Inv(u) && Enabled(u, a) && !DrainedStop(u, a)
    ensures var t := Next(u, a);
            if a.Work? && Plan(u) == [] then t.log == u.log
            else t.log + Plan(t) == u.log + Plan(u) && (a.Work? ==> t.log != u.log)
  {
    hide Inv, Plan, NextWork, NextStart, NextStop, NextShutdown, Recorded, Phase, DrainedStop;
    InvParts(u);
    if a.Work? {
      WorkCarries(u, a.now, a.lead);
    } else {
      CallsLeavePlan(u, a);
    }
  }

  lemma {:induction false} PlanCarries(s: State, acts: seq<Action>, i: nat, j: nat)
    requires Inv(s) && Legal(s, acts) && i <= j <= |acts| && Undivided(s, acts, i, j)
    ensures var u, t := StateAt(s, acts, i), StateAt(s, acts, j); t.log + Plan(t) == u.log + Plan(u)
    decreases j
  {
    hide Inv, Next, Plan, Enabled, StateAt, DrainedStop;
    if i < j {
      PlanCarries(s, acts, i, j - 1);
      StateAfterStep(s, acts, j - 1);
      assert !Tests(s, acts, j - 1);
      StepCarries(StateAt(s, acts, j - 1), acts[j - 1]);
    }
  }

  lemma TestMeansDone(s: State, acts: seq<Action>, j: nat)
    requires Inv(s) && Legal(s, acts) && j < |acts| && Tests(s, acts, j)
    ensures Plan(StateAt(s, acts, j)) == []
  {
    hide Inv, Next, Plan, Enabled, StateAt;
    StateAfterStep(s, acts, j);
    StepCarries(StateAt(s, acts, j), acts[j]);
  }

  /** The log has grown by a first part of what was promised; by all of it when the worker is done with it. */
  predicate CalledBack(before: seq<Delivery>, promised: seq<Delivery>, after: seq<Delivery>, done: bool) {
    before <= after <= before + promised && (done ==> after == before + promised)
  }

  /** After a gather: a batch succeeds in order, and then the stop requests so far are reported in order. */
  ghost predicate GatherOrder(u: State, a: Action, after: seq<Delivery>, done: bool)
    requires Recorded(u) && a.Work?
  {
    exists batch ::
      && IsBatch(u, Wrap(a.now + a.lead), batch)
      && CalledBack(u.log, Callbacks(batch, Success) + Callbacks(u.stops, TaskStop), after, done)
  }

  /** After the drain swap: the stop requests are reported in order, and then what was queued, earliest first. */
  ghost predicate DrainOrder(u: State, after: seq<Delivery>, done: bool)
    requires Recorded(u)
  {
    exists rest ::
      && (forall id :: id in rest <==> id in u.tree)
      && (forall i, j | 0 <= i < j < |rest| :: Before(u.records, rest[i], rest[j]))
      && CalledBack(u.log, Callbacks(u.stops, TaskStop) + Callbacks(rest, TimerStop), after, done)
  }

  lemma Carried(s: State, acts: seq<Action>, i: nat, j: nat, promised: seq<Delivery>)
    requires Inv(s) && Legal(s, acts) && i < j <= |acts| && Undivided(s, acts, i + 1, j)
    requires StateAt(s, acts, i + 1).log == StateAt(s, acts, i).log && Plan(StateAt(s, acts, i + 1)) == promised
    ensures CalledBack(StateAt(s, acts, i).log, promised, StateAt(s, acts, j).log, j < |acts| && Tests(s, acts, j))
  {
    hide Inv, Legal, Plan, StateAt, Tests, Undivided;
    PlanCarries(s, acts, i + 1, j);
    LogGrows(s, acts, i + 1, j);
    if j < |acts| && Tests(s, acts, j) { TestMeansDone(s, acts, j); }
  }

  lemma {:induction false} LogGrows(s: State, acts: seq<Action>, i: nat, j: nat)
    requires Inv(s) && Legal(s, acts) && i <= j <= |acts|
    ensures StateAt(s, acts, i).log <= StateAt(s, acts, j).log
    decreases j
  {
    hide Inv, Next, Enabled, StateAt, Recorded;
    if i < j {
      LogGrows(s, acts, i, j - 1);
      StateAfterStep(s, acts, j - 1);
      FreshNumber(StateAt(s, acts, j - 1));
      StepKeeps(StateAt(s, acts, j - 1), acts[j - 1]);
    }
  }

  lemma GatherIsInOrder(s: State, acts: seq<Action>, i: nat, j: nat)
    requires Inv(s) && Legal(s, acts) && i < j <= |acts| && Undivided(s, acts, i + 1, j)
    requires acts[i].Work? && Gathers(StateAt(s, acts, i))
    ensures GatherOrder(StateAt(s, acts, i), acts[i], StateAt(s, acts, j).log, j < |acts| && Tests(s, acts, j))
  {
    hide Inv, Legal, Plan, StateAt, Tests, Undivided, NextWork, Recorded, Ordered, Phase, CalledBack, IsBatch, Gathers;
    var u, t := StateAt(s, acts, i), StateAt(s, acts, i + 1);
    StateAfterStep(s, acts, i);
    InvParts(u);
    GatherPlan(u, acts[i].now, acts[i].lead);
    Carried(s, acts, i, j, Callbacks(t.needExecute, Success) + Callbacks(u.stops, TaskStop));
  }

  lemma DrainIsInOrder(s: State, acts: seq<Action>, i: nat, j: nat)
    requires Inv(s) && Legal(s, acts) && i < j <= |acts| && Undivided(s, acts, i + 1, j)
    requires acts[i].Work? && StateAt(s, acts, i).pc.Leaving?
    ensures DrainOrder(StateAt(s, acts, i), StateAt(s, acts, j).log, j < |acts| && Tests(s, acts, j))
  {
    hide Inv, Legal, Plan, StateAt, Tests, Undivided, NextWork, Recorded, Phase, CalledBack;
    var u := StateAt(s, acts, i);
    StateAfterStep(s, acts, i);
    InvParts(u);
    DrainPlan(u, acts[i].now, acts[i].lead);
    Carried(s, acts, i, j, Callbacks(u.stops, TaskStop) + Callbacks(u.tree, TimerStop));
  }

  // ----- stop requests

  predicate StopsAt(s: State, a: Action) {
    a.StopTask? && a.task in s.timerData && s.timerData[a.task] in s.tree
  }

  /** The records that the run's StopTasks find queued, in the order of the requests. */
  ghost function Requests(s: State, acts: seq<Action>): seq<nat>
    requires Inv(s) && Legal(s, acts)
    decreases |acts|
  {
    hide Inv;
    if acts == [] then []
    else
      NextKeepsInv(s, acts[0]);
      (if StopsAt(s, acts[0]) then [s.timerData[acts[0].task]] else []) + Requests(Next(s, acts[0]), acts[1..])
  }

  /** The records that the log reports as stopped, in order. */
  function Reported(log: seq<Delivery>): seq<nat> {
    if log == [] then []
    else Reported(log[..|log| - 1]) + if log[|log| - 1].outcome == TaskStop then [log[|log| - 1].id] else []
  }

  /** Those, and those still to be reported. */
  function Stops(s: State): seq<nat> {
    Reported(s.log) + s.needStop + if AfterSwap(s.pc) then [] else s.stops
  }

  lemma ReportedOne(log: seq<Delivery>, d: Delivery)
    ensures Reported(log + [d]) == Reported(log) + if d.outcome == TaskStop then [d.id] else []
  {
    assert (log + [d])[..|log|] == log;
  }

  lemma Moved(a: seq<nat>, b: seq<nat>)
    requires b != []
    ensures (a + [b[0]]) + b[1..] == a + b
  {
  }

  lemma FireKeepsStops(s: State, outcome: Outcome)
    requires Recorded(s) && CanFire(s, outcome)
    ensures Stops(Fire(s, outcome)) == Stops(s)
  {
    hide Recorded, Reported, AfterSwap;
    match outcome
    case Success => ReportedOne(s.log, Delivery(s.needExecute[0], Success));
    case TaskStop => Moved(Reported(s.log), s.needStop); ReportedOne(s.log, Delivery(s.needStop[0], TaskStop));
    case TimerStop => ReportedOne(s.log, Delivery(s.residue[0], TimerStop));
  }

  lemma WorkKeepsStops(s: State, now: nat, lead: nat)
    requires Recorded(s) && Phase(s) && s.pc != Returned
    ensures Stops(NextWork(s, now, lead)) == Stops(s)
  {
    hide Recorded, Reported, Fire;
    if s.needExecute != [] {
      FireKeepsStops(s, Success);
    } else if s.needStop != [] {
      FireKeepsStops(s, TaskStop);
    } else if s.residue != [] {
      FireKeepsStops(s, TimerStop);
    }
  }

  lemma CallsAddStops(s: State, a: Action)
    requires Recorded(s) && Phase(s) && Enabled(s, a) && !a.Work?
    ensures Stops(Next(s, a)) == Stops(s) + if StopsAt(s, a) then [s.timerData[a.task]] else []
  {
    hide Recorded, Reported;
  }

  /** Stopped tasks are reported in the order in which they were stopped: those the log reports and those still to be
      reported are exactly the requests, one after the other. */
  lemma {:induction false} StopsFollowRequests(s: State, acts: seq<Action>)
    requires Inv(s) && Legal(s, acts)
    ensures Stops(Run(s, acts)) == Stops(s) + Requests(s, acts)
    decreases |acts|
  {
    hide Inv, Next, NextWork, Stops, StopsAt, Recorded, Phase;
    if acts != [] {
      NextKeepsInv(s, acts[0]);
      InvParts(s);
      if acts[0].Work? {
        WorkStops(s, acts[0]);
      } else {
        CallsAddStops(s, acts[0]);
      }
      StopsFollowRequests(Next(s, acts[0]), acts[1..]);
    }
  }

  lemma WorkStops(s: State, a: Action)
    requires Recorded(s) && Phase(s) && Enabled(s, a) && a.Work?
    ensures Stops(Next(s, a)) == Stops(s) && !StopsAt(s, a)
  {
    hide Recorded, Stops, NextWork, Phase;
    WorkKeepsStops(s, a.now, a.lead);
  }

  // ----- everything in order

  /** What the log of a run says about order. */
  ghost predicate InOrder(s: State, acts: seq<Action>)
    requires Inv(s) && Legal(s, acts)
  {
    && (forall i: nat, j: nat |
          i < j <= |acts| && acts[i].Work? && Gathers(StateAt(s, acts, i)) && Undivided(s, acts, i + 1, j) ::
          GatherOrder(StateAt(s, acts, i), acts[i], StateAt(s, acts, j).log, j < |acts| && Tests(s, acts, j)))
    && (forall i: nat, j: nat |
          i < j <= |acts| && acts[i].Work? && StateAt(s, acts, i).pc.Leaving? && Undivided(s, acts, i + 1, j) ::
          DrainOrder(StateAt(s, acts, i), StateAt(s, acts, j).log, j < |acts| && Tests(s, acts, j)))
    && Stops(Run(s, acts)) == Stops(s) + Requests(s, acts)
  }

  /** On every run, the callbacks come in order. */
  lemma AlwaysInOrder(s: State, acts: seq<Action>)
    requires Inv(s) && Legal(s, acts)
    ensures InOrder(s, acts)
  {
    hide Inv, Legal, StateAt, Tests, Undivided, Recorded, GatherOrder, DrainOrder, Gathers, Stops, Run, Requests;
    forall i: nat, j: nat |
      i < j <= |acts| && acts[i].Work? && Gathers(StateAt(s, acts, i)) && Undivided(s, acts, i + 1, j)
      ensures GatherOrder(StateAt(s, acts, i), acts[i], StateAt(s, acts, j).log, j < |acts| && Tests(s, acts, j))
    {
      GatherIsInOrder(s, acts, i, j);
    }
    forall i: nat, j: nat |
      i < j <= |acts| && acts[i].Work? && StateAt(s, acts, i).pc.Leaving? && Undivided(s, acts, i + 1, j)
      ensures DrainOrder(StateAt(s, acts, i), StateAt(s, acts, j).log, j < |acts| && Tests(s, acts, j))
    {
      DrainIsInOrder(s, acts, i, j);
    }
    StopsFollowRequests(s, acts);
  }
}
