/** The two timers as objects.  A method that is one locked section of the source, or one callback of the worker,
    says in its postcondition which transition of the protocol it performs; Work is the worker's whole loop. */
module Timers {
  import opened TimerSpec
  import opened Options
  import opened TimerRuns
  import opened TimerOrder
  import opened TimerWorld

  /** The gather's bound on the tree is where a record with that deadline would be inserted. */
  lemma {:induction false} DueCountIsUpperBound(records: map<nat, Record>, q: seq<nat>, deadline: nat)
    requires forall id | id in q :: id in records
    ensures DueCount(TreeTimer, records, q, deadline) == InsertIndex(records, q, deadline)
  {
    if q != [] && records[q[0]].time <= deadline {
      DueCountIsUpperBound(records, q[1..], deadline);
    }
  }

  /** The timing flag of an undelivered record says whether a tree still holds its node. */
  ghost predicate FlagsRight(s: State, flags: map<nat, bool>) {
    && (forall id | id in s.records :: id in flags)
    && (forall id | Waiting(s, id) && id in flags :: flags[id] <==> id in s.tree || id in s.residue)
  }

  lemma StartFlags(s: State, flags: map<nat, bool>, task: nat, time: nat)
    requires Recorded(s) && FlagsRight(s, flags) && s.nextId !in s.records
    ensures FlagsRight(NextStart(s, task, time), flags[s.nextId := true])
  {
    StartWaiting(s, task, time);
  }

  /** Taking a record that is held once off one list leaves it on none of the two trees. */
  lemma StopFlags(s: State, flags: map<nat, bool>, id: nat)
    requires Conserved(s) && FlagsRight(s, flags)
    ensures id in s.tree ==> FlagsRight(StopQueued(s, id), flags[id := false])
    ensures id in s.residue ==> FlagsRight(StopResidue(s, id), flags[id := false])
  {
    if id in s.tree || id in s.residue {
      HeldOnce(s, id);
    }
    WithoutCounts(s.tree, id);
    WithoutCounts(s.residue, id);
    if id in s.tree {
      assert id !in multiset(Without(s.tree, id)) && id !in s.residue;
      FlagsAfter(s, flags, id, StopQueued(s, id));
    }
    if id in s.residue {
      assert id !in multiset(Without(s.residue, id)) && id !in s.tree;
      FlagsAfter(s, flags, id, StopResidue(s, id));
    }
  }

  lemma FlagsAfter(s: State, flags: map<nat, bool>, id: nat, t: State)
    requires FlagsRight(s, flags) && t.records == s.records && id !in t.tree && id !in t.residue
    requires t.tree == s.tree || t.tree == Without(s.tree, id)
    requires t.residue == s.residue || t.residue == Without(s.residue, id)
    requires t.stops == s.stops + [id] && t.needExecute == s.needExecute && t.needStop == s.needStop
    ensures FlagsRight(t, flags[id := false])
  {
    forall x | Waiting(t, x) && x != id
      ensures Waiting(s, x) && (x in t.tree <==> x in s.tree) && (x in t.residue <==> x in s.residue)
    {
      WithoutKeeps(s.tree, id, x);
      WithoutKeeps(s.residue, id, x);
    }
  }

  lemma WithoutKeeps(q: seq<nat>, id: nat, x: nat)
    requires x != id
    ensures x in q <==> x in Without(q, id)
  {
    WithoutCounts(q, id);
    assert multiset(Without(q, id))[x] == multiset(q)[x];
  }

  /** The flags after the first `k` queued records have been taken. */
  ghost predicate Cleared(before: map<nat, bool>, after: map<nat, bool>, taken: seq<nat>) {
    && after.Keys == before.Keys
    && forall id | id in before :: after[id] == (before[id] && id !in taken)
  }

  function Taken(s: State, now: nat, lead: nat): seq<nat>
    requires Recorded(s)
  {
    s.tree[..DueCount(s.kind, s.records, s.tree, Wrap(now + lead))]
  }

  lemma GatherFlags(s: State, before: map<nat, bool>, after: map<nat, bool>, now: nat, lead: nat)
    requires Recorded(s) && Conserved(s) && FlagsRight(s, before) && s.needStop == s.residue == []
    requires Cleared(before, after, Taken(s, now, lead))
    ensures FlagsRight(Gather(s, now, lead), after)
  {
    GatherAtFlags(s, before, after, DueCount(s.kind, s.records, s.tree, Wrap(now + lead)), Wrap(now + lead));
  }

  lemma GatherAtFlags(s: State, before: map<nat, bool>, after: map<nat, bool>, k: nat, deadline: nat)
    requires Conserved(s) && FlagsRight(s, before) && s.needStop == s.residue == [] && k <= |s.tree|
    requires Cleared(before, after, s.tree[..k])
    ensures FlagsRight(GatherAt(s, k, deadline), after)
  {
    var t := GatherAt(s, k, deadline);
    assert s.tree == s.tree[..k] + s.tree[k..];
    forall x | Waiting(t, x) && x in after ensures after[x] <==> x in t.tree || x in t.residue {
      assert x in s.tree <==> x in s.tree[..k] || x in s.tree[k..];
      assert Waiting(s, x);
      if x in s.tree[..k] { GatherAtApart(s, k, x); }
    }
  }

  lemma DrainFlags(s: State, flags: map<nat, bool>)
    requires FlagsRight(s, flags)
    ensures FlagsRight(Drain(s), flags)
  {
    forall x | Waiting(Drain(s), x) ensures Waiting(s, x) {}
  }

  lemma FireWaiting(s: State, outcome: Outcome, x: nat)
    requires Recorded(s) && Conserved(s) && CanFire(s, outcome)
    requires Waiting(Fire(s, outcome), x)
    ensures Waiting(s, x) && x != FireId(s, outcome)
  {
    FireHeld(s, outcome, x);
    assert Held(Fire(s, outcome), x) > 0;
    if x == FireId(s, outcome) {
      assert Waiting(s, x);
      HeldOnce(s, x);
    }
  }

  lemma FireFlags(s: State, flags: map<nat, bool>, outcome: Outcome)
    requires Recorded(s) && Conserved(s) && CanFire(s, outcome) && FlagsRight(s, flags)
    ensures FlagsRight(Fire(s, outcome), flags)
  {
    var t := Fire(s, outcome);
    forall x | Waiting(t, x) ensures Waiting(s, x) && x != FireId(s, outcome) { FireWaiting(s, outcome, x); }
    if outcome.TimerStop? {
      assert s.residue == [s.residue[0]] + s.residue[1..];
      assert forall x :: x in s.residue <==> x == s.residue[0] || x in t.residue;
    }
  }

  lemma LinkedTask(s: State, task: nat)
    requires Inv(s) && task in s.timerData
    ensures Waiting(s, s.timerData[task]) && s.timerData[task] in s.records && Conserved(s)
  {
  }

  /** What the worker's sections rely on at each point. */
  lemma WorkBranches(s: State)
    requires Inv(s)
    ensures Conserved(s)
    ensures s.pc.Starting? || s.pc.Sleeping? || (s.pc.Firing? && s.needStop == []) ==> s.needStop == s.residue == []
  {
  }

  lemma InvRecorded(s: State)
    requires Inv(s)
    ensures Recorded(s)
  {
  }

  /** `jaf::time::Timer`: records in a tree ordered by time, equal times in insertion order. */
  class Timer {
    var runFlag: bool
    var nextTaskId: nat
    var leadTime: nat
    var tasksTime: seq<nat>
    var tasksStop: seq<nat>
    var records: map<nat, Record>
    var timingFlag: map<nat, bool>
    var timerData: map<nat, nat>

    // the worker's own lists and position
    var needExecuteTasks: seq<nat>
    var needStopTasks: seq<nat>
    var residueTasksTime: seq<nat>
    var pc: Pc

    ghost var log: seq<Delivery>
    ghost var due: map<nat, nat>
    ghost var stopped: set<nat>

    ghost function View(): State
      reads this
    {
      State(TreeTimer, runFlag, nextTaskId, records, timerData, tasksTime, tasksStop,
            needExecuteTasks, needStopTasks, residueTasksTime, pc, log, due, stopped)
    }

    ghost predicate Valid()
      reads this
    {
      Inv(View()) && FlagsRight(View(), timingFlag)
    }

    constructor ()
      ensures Valid() && View() == Init(TreeTimer)
    {
      runFlag, nextTaskId, leadTime := true, 1, 5;
      tasksTime, tasksStop, records, timingFlag, timerData := [], [], map[], map[], map[];
      needExecuteTasks, needStopTasks, residueTasksTime, pc := [], [], [], Starting;
      log, due, stopped := [], map[], {};
      new;
      InitInv(TreeTimer);
    }

    method SetLeadTime(lead: nat)
      requires Valid()
      modifies this`leadTime
      ensures Valid() && leadTime == lead && View() == old(View())
    {
      leadTime := lead;
    }

    /** The tree's search for the first node with a greater key. */
    method UpperBound(key: nat) returns (k: nat)
      requires Recorded(View())
      ensures k <= |tasksTime| && k == InsertIndex(records, tasksTime, key)
    {
      k := 0;
      while k < |tasksTime| && records[tasksTime[k]].time <= key
        invariant k <= |tasksTime|
        invariant InsertIndex(records, tasksTime, key) == k + InsertIndex(records, tasksTime[k..], key)
      {
        assert tasksTime[k..][1..] == tasksTime[k + 1..];
        k := k + 1;
      }
    }

    method StartTask(task: nat, now: nat, interval: nat) returns (ok: bool)
      requires Valid() && runFlag && task !in timerData
      modifies this
      ensures leadTime == old(leadTime)
      ensures Valid() && ok
      ensures View() == Next(old(View()), Action.StartTask(task, Wrap(now + interval)))
    {
      ghost var s, flags := View(), timingFlag;
      var time := Wrap(now + interval);
      Enqueue(task, time);
      NextKeepsInv(s, Action.StartTask(task, time));
      StartFlags(s, flags, task, time);
      ok := true;
    }

    method Enqueue(task: nat, time: nat)
      requires Recorded(View())
      modifies this
      ensures leadTime == old(leadTime)
      ensures View() == NextStart(old(View()), task, time)
      ensures timingFlag == old(timingFlag)[old(nextTaskId) := true]
    {
      var k := UpperBound(time);
      var id := nextTaskId;
      nextTaskId := nextTaskId + 1;
      records := records[id := Record(task, time)];
      timingFlag := timingFlag[id := true];
      timerData := timerData[task := id];
      tasksTime := tasksTime[..k] + [id] + tasksTime[k..];
      pc := Notify(pc);
    }

    method StopTask(task: nat)
      requires Valid()
      modifies this
      ensures leadTime == old(leadTime)
      ensures Valid()
      ensures View() == Next(old(View()), Action.StopTask(task))
    {
      ghost var s, flags := View(), timingFlag;
      NextKeepsInv(s, Action.StopTask(task));
      if task !in timerData {
        return;
      }
      var id := timerData[task];
      LinkedTask(s, task);
      if !timingFlag[id] {
        return;
      }
      Unlink(id);
      StopFlags(s, flags, id);
    }

    /** The record leaves the tree that holds its node and joins the stop list. */
    method Unlink(id: nat)
      requires id in tasksTime || id in residueTasksTime
      modifies this
      ensures leadTime == old(leadTime)
      ensures id in old(tasksTime) ==> View() == StopQueued(old(View()), id)
      ensures id !in old(tasksTime) ==> View() == StopResidue(old(View()), id)
      ensures timingFlag == old(timingFlag)[id := false]
    {
      EraseNode(id);
      timingFlag := timingFlag[id := false];
      tasksStop := tasksStop + [id];
      pc := Notify(pc);
    }

    method EraseNode(id: nat)
      modifies `tasksTime, `residueTasksTime, `stopped
      ensures if id in old(tasksTime)
              then tasksTime == Without(old(tasksTime), id) && residueTasksTime == old(residueTasksTime)
                   && stopped == old(stopped) + {id}
              else tasksTime == old(tasksTime) && residueTasksTime == Without(old(residueTasksTime), id)
                   && stopped == old(stopped)
    {
      if id in tasksTime {
        tasksTime := Without(tasksTime, id);
        stopped := stopped + {id};
      } else {
        residueTasksTime := Without(residueTasksTime, id);
      }
    }

    /** The destructor's locked section. */
    method Shutdown()
      requires Valid()
      modifies this
      ensures leadTime == old(leadTime)
      ensures Valid()
      ensures View() == Next(old(View()), Action.Shutdown)
    {
      hide Inv;
      NextKeepsInv(View(), Action.Shutdown);
      if !runFlag {
        return;
      }
      runFlag := false;
      pc := Notify(pc);
    }

    /** Take the due records and the pending stop requests for the worker. */
    method GainNeedExecuteTasks(now: nat)
      requires Recorded(View()) && forall id | id in records :: id in timingFlag
      modifies this
      ensures View() == Gather(old(View()), now, old(leadTime)) && leadTime == old(leadTime)
      ensures Cleared(old(timingFlag), timingFlag, Taken(old(View()), now, old(leadTime)))
    {
      var deadlineTime := Wrap(now + leadTime);
      var endIt := UpperBound(deadlineTime);
      DueCountIsUpperBound(records, tasksTime, deadlineTime);
      TakeFront(endIt, deadlineTime);
    }

    method TakeFront(endIt: nat, deadlineTime: nat)
      requires endIt <= |tasksTime| && forall id | id in tasksTime :: id in timingFlag
      modifies `due, `needExecuteTasks, `timingFlag, `tasksTime, `needStopTasks, `tasksStop, `pc
      ensures View() == GatherAt(old(View()), endIt, deadlineTime)
      ensures Cleared(old(timingFlag), timingFlag, old(tasksTime)[..endIt])
    {
      hide Cleared;
      ghost var taken := map id | id in tasksTime[..endIt] :: deadlineTime;
      MoveFront(endIt);
      HandOver(taken);
    }

    /** The stop requests are taken over, and the gather is done. */
    method HandOver(ghost taken: map<nat, nat>)
      modifies `due, `needStopTasks, `tasksStop, `pc
      ensures due == old(due) + taken && pc == Firing
      ensures needStopTasks == old(tasksStop) && tasksStop == old(needStopTasks)
    {
      due := due + taken;
      needStopTasks, tasksStop := tasksStop, needStopTasks;
      pc := Firing;
    }

    method MoveFront(endIt: nat)
      requires endIt <= |tasksTime| && forall id | id in tasksTime :: id in timingFlag
      modifies `needExecuteTasks, `timingFlag, `tasksTime
      ensures needExecuteTasks == old(needExecuteTasks) + old(tasksTime)[..endIt]
      ensures tasksTime == old(tasksTime)[endIt..]
      ensures Cleared(old(timingFlag), timingFlag, old(tasksTime)[..endIt])
    {
      hide Cleared;
      MoveToBatch(endIt);
      EraseFront(endIt);
    }

    method MoveToBatch(endIt: nat)
      requires endIt <= |tasksTime| && forall id | id in tasksTime :: id in timingFlag
      modifies `needExecuteTasks, `timingFlag
      ensures needExecuteTasks == old(needExecuteTasks) + tasksTime[..endIt]
      ensures Cleared(old(timingFlag), timingFlag, tasksTime[..endIt])
    {
      var it := 0;
      while it < endIt
        invariant it <= endIt
        invariant needExecuteTasks == old(needExecuteTasks) + tasksTime[..it]
        invariant Cleared(old(timingFlag), timingFlag, tasksTime[..it])
      {
        assert tasksTime[..it + 1] == tasksTime[..it] + [tasksTime[it]];
        assert tasksTime[it] in tasksTime;
        timingFlag := timingFlag[tasksTime[it] := false];
        needExecuteTasks := needExecuteTasks + [tasksTime[it]];
        it := it + 1;
      }
    }

    method EraseFront(endIt: nat)
      requires endIt <= |tasksTime|
      modifies `tasksTime
      ensures tasksTime == old(tasksTime)[endIt..]
    {
      var it := 0;
      while it < endIt
        invariant it <= endIt
        invariant tasksTime == old(tasksTime)[it..]
      {
        tasksTime := tasksTime[1..];
        it := it + 1;
      }
    }

    /** One turn of the loop in ExecuteTasks, or of the residue loop: the task forgets its record,
        then its function is called. */
    method Execute(outcome: Outcome)
      requires Recorded(View()) && CanFire(View(), outcome)
      modifies this
      ensures leadTime == old(leadTime)
      ensures View() == Fire(old(View()), outcome)
      ensures timingFlag == old(timingFlag)
    {
      var id;
      match outcome {
        case Success => id, needExecuteTasks := needExecuteTasks[0], needExecuteTasks[1..];
        case TaskStop => id, needStopTasks := needStopTasks[0], needStopTasks[1..];
        case TimerStop => id, residueTasksTime := residueTasksTime[0], residueTasksTime[1..];
      }
      timerData := timerData - {records[id].task};
      log := log + [Delivery(id, outcome)];
    }

    method TakeBatch(now: nat)
      requires Valid() && needStopTasks == residueTasksTime == [] && !AfterSwap(pc)
      modifies this
      ensures leadTime == old(leadTime)
      ensures Valid() && View() == Gather(old(View()), now, old(leadTime)) && pc == Firing
    {
      ghost var s, flags, lead := View(), timingFlag, leadTime;
      WorkBranches(s);
      GainNeedExecuteTasks(now);
      GatherFlags(s, flags, timingFlag, now, lead);
      GatherKeepsInv(s, now, lead);
    }

    method CallBack(outcome: Outcome)
      requires Valid() && CanFire(View(), outcome) && Inv(Fire(View(), outcome))
      modifies this
      ensures leadTime == old(leadTime)
      ensures Valid() && View() == Fire(old(View()), outcome)
    {
      FireFlags(View(), timingFlag, outcome);
      Execute(outcome);
    }

    method Advance(next: Pc)
      requires Valid() && Inv(View().(pc := next))
      modifies `pc
      ensures Valid() && View() == old(View()).(pc := next)
    {
      hide Inv;
      pc := next;
    }

    /** The swap that ends Work: what is left becomes the residue. */
    method SwapForDrain()
      requires Valid() && Inv(Drain(View()))
      modifies this
      ensures leadTime == old(leadTime)
      ensures Valid() && View() == Drain(old(View()))
    {
      DrainFlags(View(), timingFlag);
      SwapLists();
    }

    method SwapLists()
      modifies this
      ensures leadTime == old(leadTime)
      ensures View() == Drain(old(View())) && timingFlag == old(timingFlag)
    {
      residueTasksTime, tasksTime := tasksTime, residueTasksTime;
      needStopTasks, tasksStop := tasksStop, needStopTasks;
      pc := Draining;
    }

    /** The worker's next section in Work, whichever point it has reached. */
    method WorkSection(now: nat)
      requires Valid() && pc != Returned
      modifies this
      ensures leadTime == old(leadTime)
      ensures Valid()
      ensures View() == Next(old(View()), Action.Work(now, old(leadTime)))
    {
      hide Inv, Gather, Fire, Drain;
      InvRecorded(View());
      NextKeepsInv(View(), Action.Work(now, leadTime));
      WorkBranches(View());
      match pc {
        case Starting => TakeBatch(now);
        case Firing => LoopHead(now);
        case Sleeping(_, _, _) =>
          if !runFlag {
            Advance(Leaving);
          } else {
            TakeBatch(now);
          }
        case Leaving => SwapForDrain();
        case Draining =>
          if needStopTasks != [] {
            CallBack(TaskStop);
          } else if residueTasksTime != [] {
            CallBack(TimerStop);
          } else {
            Advance(Returned);
          }
      }
    }

    /** The loop's head: callbacks first, then the locked test that gathers, waits or leaves. */
    method LoopHead(now: nat)
      requires Valid() && pc == Firing && Inv(NextWork(View(), now, leadTime))
      modifies this
      ensures leadTime == old(leadTime)
      ensures Valid()
      ensures View() == NextWork(old(View()), now, old(leadTime))
    {
      hide Inv, Gather, Fire;
      WorkBranches(View());
      if needExecuteTasks != [] {
        CallBack(Success);
      } else if needStopTasks != [] {
        CallBack(TaskStop);
      } else if !runFlag {
        Advance(Leaving);
      } else if tasksStop != [] {
        TakeBatch(now);
      } else if tasksTime == [] {
        Advance(Sleeping(false, now, None));
      } else {
        Advance(Sleeping(false, now, Some(WakeInstant(records[tasksTime[0]].time, now))));
      }
    }

    /** The calls of one turn. */
    method Clients(clients: seq<Client>)
      requires Valid()
      modifies this
      ensures Valid() && View() == Called(old(View()), clients, |clients|)
      ensures leadTime == LeadAfter(old(leadTime), clients)
    {
      hide Inv, Next, FlagsRight, Called, LeadAfter;
      ghost var s, lead := View(), leadTime;
      CalledNone(s, clients);
      NoLead(lead, clients);
      for i := 0 to |clients|
        invariant Valid() && View() == Called(s, clients, i) && leadTime == LeadAfter(lead, clients[..i])
      {
        InvRecorded(View());
        CalledOne(s, clients, i);
        LeadOne(lead, clients, i);
        match clients[i] {
          case Start(task, now, interval) =>
            WrapBelow(now + interval);
            if runFlag && task !in timerData {
              var _ := StartTask(task, now, interval);
            }
          case Stop(task) => StopTask(task);
          case ShutDown => Shutdown();
          case SetLead(x) => SetLeadTime(x);
        }
      }
      assert clients[..|clients|] == clients;
    }

    /** A turn of clients, and the worker's next section. */
    method TakeTurn(turn: Turn)
      requires Valid() && pc != Returned
      modifies this
      ensures Valid() && View() == Run(old(View()), TurnActs(old(View()), turn, old(leadTime)))
      ensures leadTime == LeadAfter(old(leadTime), turn.clients)
      ensures !old(runFlag) ==> !runFlag && WorkLeft(View()) < WorkLeft(old(View()))
    {
      hide Inv, Next, FlagsRight, Called, LeadAfter, TurnActs, WorkLeft, Run;
      ghost var s, lead := View(), leadTime;
      TurnIsCallsAndWork(s, turn, lead);
      Clients(turn.clients);
      WorkSection(turn.now);
    }

    /** The worker's thread from its start, section by section, with a turn of clients before each; `n` turns are
        taken.  It ends when the worker has returned, or when the timer runs on and nobody calls any more. */
    method Work(world: seq<Turn>) returns (ended: bool, n: nat)
      requires Valid() && pc == Starting
      modifies this
      ensures Valid() && View() == After(old(View()), old(leadTime), world, n)
      ensures InOrder(old(View()), Story(old(View()), old(leadTime), world, n))
      ensures if ended then pc == Returned else runFlag && n == |world|
      ensures ended ==> var story := Story(old(View()), old(leadTime), world, n);
                        AllCalledBack(View()) <==> DrainedStops(old(View()), story) == 0
    {
      hide Inv, FlagsRight, TurnActs, Story, WorkLeft, LeadAt, Run, AllCalledBack, DrainedStops, InOrder;
      ghost var s, lead := View(), leadTime;
      AfterNone(s, lead, world);
      NothingStranded(s);
      n := 0;
      while pc != Returned
        invariant Valid() && View() == After(s, lead, world, n) && leadTime == LeadAt(lead, world, n)
        invariant n <= |world| || !runFlag
        decreases if n < |world| then |world| - n else 0, if runFlag then 0 else WorkLeft(View())
      {
        if n >= |world| && runFlag {
          AlwaysInOrder(s, Story(s, lead, world, n));
          return false, n;
        }
        AfterTurn(s, lead, world, n);
        TakeTurn(TurnAt(world, n));
        n := n + 1;
      }
      ReturnsExactly(s, Story(s, lead, world, n));
      AlwaysInOrder(s, Story(s, lead, world, n));
      return true, n;
    }
  }

  // ----- Timer2

  /** STimerKey: ordered by time, then by task id. */
  datatype Key = Key(time: nat, id: nat)

  predicate KeyLess(a: Key, b: Key) {
    a.time < b.time || (a.time == b.time && a.id < b.id)
  }

  function Ids(keys: seq<Key>): (q: seq<nat>)
    ensures |q| == |keys|
    ensures forall i | 0 <= i < |keys| :: q[i] == keys[i].id
  {
    seq(|keys|, i requires 0 <= i < |keys| => keys[i].id)
  }

  /** A key carries its record's deadline. */
  ghost predicate KeysRight(records: map<nat, Record>, keys: seq<Key>) {
    forall i | 0 <= i < |keys| :: keys[i].id in records && records[keys[i].id].time == keys[i].time
  }

  /** The map's upper bound: how many leading keys are not greater than the bound. */
  function CutIndex(keys: seq<Key>, bound: Key): (k: nat)
    ensures k <= |keys|
  {
    if keys == [] || KeyLess(bound, keys[0]) then 0 else 1 + CutIndex(keys[1..], bound)
  }

  lemma {:induction false} CutInserts(records: map<nat, Record>, keys: seq<Key>, key: Key)
    requires KeysRight(records, keys) && forall id | id in Ids(keys) :: id in records
    requires forall i | 0 <= i < |keys| :: keys[i].id < key.id
    ensures CutIndex(keys, key) == InsertIndex(records, Ids(keys), key.time)
  {
    if keys != [] {
      assert Ids(keys)[1..] == Ids(keys[1..]);
      CutInserts(records, keys[1..], key);
    }
  }

  lemma {:induction false} CutGathers(records: map<nat, Record>, keys: seq<Key>, deadline: nat)
    requires KeysRight(records, keys) && forall id | id in Ids(keys) :: id in records
    ensures CutIndex(keys, Key(deadline, 0)) == DueCount(MapTimer, records, Ids(keys), deadline)
  {
    if keys != [] {
      assert Ids(keys)[1..] == Ids(keys[1..]);
      CutGathers(records, keys[1..], deadline);
    }
  }

  function Erase(keys: seq<Key>, i: nat): seq<Key>
    requires i < |keys|
  {
    keys[..i] + keys[i + 1..]
  }

  lemma {:induction false} WithoutAt(q: seq<nat>, i: nat)
    requires i < |q| && forall j | 0 <= j < i :: q[j] != q[i]
    ensures Without(q, q[i]) == q[..i] + q[i + 1..]
  {
    if i > 0 {
      var r := q[1..];
      assert forall j | 0 <= j < i - 1 :: r[j] == q[j + 1];
      WithoutAt(r, i - 1);
      assert q[..i] == [q[0]] + r[..i - 1];
      assert r[i..] == q[i + 1..];
    }
  }

  lemma EraseIsWithout(keys: seq<Key>, i: nat)
    requires i < |keys| && forall j | 0 <= j < i :: keys[j].id != keys[i].id
    ensures Ids(Erase(keys, i)) == Without(Ids(keys), keys[i].id)
  {
    WithoutAt(Ids(keys), i);
    assert Ids(Erase(keys, i)) == Ids(keys)[..i] + Ids(keys)[i + 1..];
  }

  lemma InsertedIds(keys: seq<Key>, k: nat, key: Key)
    requires k <= |keys|
    ensures Ids(keys[..k] + [key] + keys[k..]) == Ids(keys)[..k] + [key.id] + Ids(keys)[k..]
  {
  }

  lemma FoundIsQueued(records: map<nat, Record>, keys: seq<Key>, key: Key, it: nat)
    requires KeysRight(records, keys) && key.id in records && key.time == records[key.id].time
    requires it <= |keys| && (it < |keys| ==> keys[it] == key) && forall j | 0 <= j < it :: keys[j] != key
    ensures key.id in Ids(keys) <==> it < |keys|
    ensures forall j | 0 <= j < it :: keys[j].id != key.id
  {
    forall j | 0 <= j < it ensures keys[j].id != key.id { assert keys[j] != key; }
    if it < |keys| { assert Ids(keys)[it] == key.id; }
  }

  /** `jaf::time::Timer2`: records in a map by (time, id); stopping looks the key up. */
  class Timer2 {
    var runFlag: bool
    var nextTaskId: nat
    var leadTime: nat
    var tasksTime: seq<Key>
    var tasksStop: seq<nat>
    var records: map<nat, Record>
    var timerData: map<nat, nat>

    // the worker's own lists and position
    var needExecuteTasks: seq<nat>
    var needStopTasks: seq<nat>
    var residueTasksTime: seq<Key>
    var pc: Pc

    ghost var log: seq<Delivery>
    ghost var due: map<nat, nat>
    ghost var stopped: set<nat>

    ghost function View(): State
      reads this
    {
      State(MapTimer, runFlag, nextTaskId, records, timerData, Ids(tasksTime), tasksStop,
            needExecuteTasks, needStopTasks, Ids(residueTasksTime), pc, log, due, stopped)
    }

    ghost predicate Valid()
      reads this
    {
      Inv(View()) && KeysRight(records, tasksTime) && KeysRight(records, residueTasksTime)
    }

    constructor ()
      ensures Valid() && View() == Init(MapTimer)
    {
      runFlag, nextTaskId, leadTime := true, 1, 5;
      tasksTime, tasksStop, records, timerData := [], [], map[], map[];
      needExecuteTasks, needStopTasks, residueTasksTime, pc := [], [], [], Starting;
      log, due, stopped := [], map[], {};
      new;
      InitInv(MapTimer);
    }

    method SetLeadTime(lead: nat)
      requires Valid()
      modifies this`leadTime
      ensures Valid() && leadTime == lead && View() == old(View())
    {
      leadTime := lead;
    }

    /** The map's search for the first greater key. */
    method UpperBound(bound: Key) returns (k: nat)
      ensures k <= |tasksTime| && k == CutIndex(tasksTime, bound)
    {
      k := 0;
      while k < |tasksTime| && !KeyLess(bound, tasksTime[k])
        invariant k <= |tasksTime|
        invariant CutIndex(tasksTime, bound) == k + CutIndex(tasksTime[k..], bound)
      {
        assert tasksTime[k..][1..] == tasksTime[k + 1..];
        k := k + 1;
      }
    }

    /** The map's lookup; `|tasksTime|` is its end. */
    method Find(key: Key) returns (k: nat)
      ensures k <= |tasksTime| && (k < |tasksTime| ==> tasksTime[k] == key)
      ensures forall j | 0 <= j < k :: tasksTime[j] != key
    {
      k := 0;
      while k < |tasksTime| && tasksTime[k] != key
        invariant k <= |tasksTime| && forall j | 0 <= j < k :: tasksTime[j] != key
      {
        k := k + 1;
      }
    }

    method StartTask(task: nat, now: nat, interval: nat) returns (ok: bool)
      requires Valid() && runFlag && task !in timerData
      modifies this
      ensures leadTime == old(leadTime)
      ensures Valid() && ok
      ensures View() == Next(old(View()), Action.StartTask(task, Wrap(now + interval)))
    {
      ghost var s := View();
      var time := Wrap(now + interval);
      FreshId();
      Enqueue(task, time);
      NextKeepsInv(s, Action.StartTask(task, time));
      ok := true;
    }

    lemma FreshId()
      requires Valid()
      ensures nextTaskId !in records && forall i | 0 <= i < |tasksTime| :: tasksTime[i].id < nextTaskId
    {
    }

    method Enqueue(task: nat, time: nat)
      requires Recorded(View()) && KeysRight(records, tasksTime) && KeysRight(records, residueTasksTime)
      requires nextTaskId !in records && forall i | 0 <= i < |tasksTime| :: tasksTime[i].id < nextTaskId
      modifies this
      ensures leadTime == old(leadTime)
      ensures View() == NextStart(old(View()), task, time)
      ensures KeysRight(records, tasksTime) && KeysRight(records, residueTasksTime)
    {
      var key := Key(time, nextTaskId);
      CutInserts(records, tasksTime, key);
      var k := UpperBound(key);
      InsertedIds(tasksTime, k, key);
      tasksTime := tasksTime[..k] + [key] + tasksTime[k..];
      nextTaskId := nextTaskId + 1;
      records := records[key.id := Record(task, time)];
      timerData := timerData[task := key.id];
      pc := Notify(pc);
    }

    method StopTask(task: nat)
      requires Valid()
      modifies this
      ensures leadTime == old(leadTime)
      ensures Valid()
      ensures View() == Next(old(View()), Action.StopTask(task))
    {
      ghost var s := View();
      NextKeepsInv(s, Action.StopTask(task));
      if task !in timerData {
        return;
      }
      LinkedTask(s, task);
      var key := Key(records[timerData[task]].time, timerData[task]);
      var it := Find(key);
      FoundIsQueued(records, tasksTime, key, it);
      if it == |tasksTime| {
        return;
      }
      Unlink(it);
    }

    method Unlink(it: nat)
      requires it < |tasksTime| && forall j | 0 <= j < it :: tasksTime[j].id != tasksTime[it].id
      requires KeysRight(records, tasksTime)
      modifies this
      ensures leadTime == old(leadTime)
      ensures View() == StopQueued(old(View()), old(tasksTime)[it].id)
      ensures KeysRight(records, tasksTime) && records == old(records) && residueTasksTime == old(residueTasksTime)
    {
      EraseIsWithout(tasksTime, it);
      tasksStop := tasksStop + [tasksTime[it].id];
      stopped := stopped + {tasksTime[it].id};
      tasksTime := Erase(tasksTime, it);
      pc := Notify(pc);
    }

    /** The destructor's locked section. */
    method Shutdown()
      requires Valid()
      modifies this
      ensures leadTime == old(leadTime)
      ensures Valid()
      ensures View() == Next(old(View()), Action.Shutdown)
    {
      hide Inv;
      NextKeepsInv(View(), Action.Shutdown);
      if !runFlag {
        return;
      }
      runFlag := false;
      pc := Notify(pc);
    }

    /** Take the due records and the pending stop requests for the worker. */
    method GainNeedExecuteTasks(now: nat)
      requires Recorded(View()) && KeysRight(records, tasksTime)
      modifies this
      ensures leadTime == old(leadTime)
      ensures View() == Gather(old(View()), now, old(leadTime))
      ensures KeysRight(records, tasksTime) && records == old(records) && residueTasksTime == old(residueTasksTime)
    {
      var deadlineTime := Wrap(now + leadTime);
      var endIt := UpperBound(Key(deadlineTime, 0));
      CutGathers(records, tasksTime, deadlineTime);
      TakeFront(endIt, deadlineTime);
    }

    method TakeFront(endIt: nat, deadlineTime: nat)
      requires endIt <= |tasksTime|
      modifies `due, `needExecuteTasks, `tasksTime, `needStopTasks, `tasksStop, `pc
      ensures View() == GatherAt(old(View()), endIt, deadlineTime)
      ensures tasksTime == old(tasksTime)[endIt..]
    {
      ghost var taken := map id | id in Ids(tasksTime)[..endIt] :: deadlineTime;
      MoveToBatch(endIt);
      assert Ids(tasksTime[endIt..]) == Ids(tasksTime)[endIt..];
      tasksTime := tasksTime[endIt..];
      HandOver(taken);
    }

    /** The stop requests are taken over, and the gather is done. */
    method HandOver(ghost taken: map<nat, nat>)
      modifies `due, `needStopTasks, `tasksStop, `pc
      ensures due == old(due) + taken && pc == Firing
      ensures needStopTasks == old(tasksStop) && tasksStop == old(needStopTasks)
    {
      due := due + taken;
      needStopTasks, tasksStop := tasksStop, needStopTasks;
      pc := Firing;
    }

    method MoveToBatch(endIt: nat)
      requires endIt <= |tasksTime|
      modifies `needExecuteTasks
      ensures needExecuteTasks == old(needExecuteTasks) + Ids(tasksTime)[..endIt]
    {
      var it := 0;
      while it < endIt
        invariant it <= endIt
        invariant needExecuteTasks == old(needExecuteTasks) + Ids(tasksTime)[..it]
      {
        assert Ids(tasksTime)[..it + 1] == Ids(tasksTime)[..it] + [tasksTime[it].id];
        needExecuteTasks := needExecuteTasks + [tasksTime[it].id];
        it := it + 1;
      }
    }

    /** One callback, from a batch or from the residue. */
    method Execute(outcome: Outcome)
      requires Recorded(View()) && CanFire(View(), outcome)
      modifies this
      ensures leadTime == old(leadTime)
      ensures View() == Fire(old(View()), outcome)
      ensures records == old(records) && tasksTime == old(tasksTime)
      ensures old(KeysRight(records, residueTasksTime)) ==> KeysRight(records, residueTasksTime)
    {
      var id;
      match outcome {
        case Success => id, needExecuteTasks := needExecuteTasks[0], needExecuteTasks[1..];
        case TaskStop => id, needStopTasks := needStopTasks[0], needStopTasks[1..];
        case TimerStop =>
          assert Ids(residueTasksTime)[1..] == Ids(residueTasksTime[1..]);
          id, residueTasksTime := residueTasksTime[0].id, residueTasksTime[1..];
      }
      timerData := timerData - {records[id].task};
      log := log + [Delivery(id, outcome)];
    }

    method TakeBatch(now: nat)
      requires Valid() && needStopTasks == [] && residueTasksTime == [] && !AfterSwap(pc)
      modifies this
      ensures leadTime == old(leadTime)
      ensures Valid() && View() == Gather(old(View()), now, old(leadTime)) && pc == Firing
    {
      ghost var s, lead := View(), leadTime;
      GainNeedExecuteTasks(now);
      GatherKeepsInv(s, now, lead);
    }

    method CallBack(outcome: Outcome)
      requires Valid() && CanFire(View(), outcome) && Inv(Fire(View(), outcome))
      modifies this
      ensures leadTime == old(leadTime)
      ensures Valid() && View() == Fire(old(View()), outcome)
    {
      Execute(outcome);
    }

    method Advance(next: Pc)
      requires Valid() && Inv(View().(pc := next))
      modifies `pc
      ensures Valid() && View() == old(View()).(pc := next)
    {
      hide Inv;
      pc := next;
    }

    method SwapForDrain()
      requires Valid() && Inv(Drain(View()))
      modifies this
      ensures leadTime == old(leadTime)
      ensures Valid() && View() == Drain(old(View()))
    {
      SwapLists();
    }

    method SwapLists()
      modifies `residueTasksTime, `tasksTime, `needStopTasks, `tasksStop, `pc
      ensures View() == Drain(old(View()))
      ensures tasksTime == old(residueTasksTime) && residueTasksTime == old(tasksTime)
    {
      residueTasksTime, tasksTime := tasksTime, residueTasksTime;
      needStopTasks, tasksStop := tasksStop, needStopTasks;
      pc := Draining;
    }

    /** The worker's next section in Work, whichever point it has reached. */
    method WorkSection(now: nat)
      requires Valid() && pc != Returned
      modifies this
      ensures leadTime == old(leadTime)
      ensures Valid()
      ensures View() == Next(old(View()), Action.Work(now, old(leadTime)))
    {
      hide Inv, Gather, Fire, Drain;
      InvRecorded(View());
      NextKeepsInv(View(), Action.Work(now, leadTime));
      WorkBranches(View());
      match pc {
        case Starting => TakeBatch(now);
        case Firing => LoopHead(now);
        case Sleeping(_, _, _) =>
          if !runFlag {
            Advance(Leaving);
          } else {
            TakeBatch(now);
          }
        case Leaving => SwapForDrain();
        case Draining =>
          if needStopTasks != [] {
            CallBack(TaskStop);
          } else if residueTasksTime != [] {
            CallBack(TimerStop);
          } else {
            Advance(Returned);
          }
      }
    }

    method LoopHead(now: nat)
      requires Valid() && pc == Firing && Inv(NextWork(View(), now, leadTime))
      modifies this
      ensures leadTime == old(leadTime)
      ensures Valid()
      ensures View() == NextWork(old(View()), now, old(leadTime))
    {
      hide Inv, Gather, Fire;
      WorkBranches(View());
      if needExecuteTasks != [] {
        CallBack(Success);
      } else if needStopTasks != [] {
        CallBack(TaskStop);
      } else if !runFlag {
        Advance(Leaving);
      } else if tasksStop != [] {
        TakeBatch(now);
      } else if tasksTime == [] {
        Advance(Sleeping(false, now, None));
      } else {
        assert Ids(tasksTime)[0] == tasksTime[0].id;
        Advance(Sleeping(false, now, Some(WakeInstant(tasksTime[0].time, now))));
      }
    }

    /** The calls of one turn. */
    method Clients(clients: seq<Client>)
      requires Valid()
      modifies this
      ensures Valid() && View() == Called(old(View()), clients, |clients|)
      ensures leadTime == LeadAfter(old(leadTime), clients)
    {
      hide Inv, Next, KeysRight, Called, LeadAfter;
      ghost var s, lead := View(), leadTime;
      CalledNone(s, clients);
      NoLead(lead, clients);
      for i := 0 to |clients|
        invariant Valid() && View() == Called(s, clients, i) && leadTime == LeadAfter(lead, clients[..i])
      {
        InvRecorded(View());
        CalledOne(s, clients, i);
        LeadOne(lead, clients, i);
        match clients[i] {
          case Start(task, now, interval) =>
            WrapBelow(now + interval);
            if runFlag && task !in timerData {
              var _ := StartTask(task, now, interval);
            }
          case Stop(task) => StopTask(task);
          case ShutDown => Shutdown();
          case SetLead(x) => SetLeadTime(x);
        }
      }
      assert clients[..|clients|] == clients;
    }

    /** A turn of clients, and the worker's next section. */
    method TakeTurn(turn: Turn)
      requires Valid() && pc != Returned
      modifies this
      ensures Valid() && View() == Run(old(View()), TurnActs(old(View()), turn, old(leadTime)))
      ensures leadTime == LeadAfter(old(leadTime), turn.clients)
      ensures !old(runFlag) ==> !runFlag && WorkLeft(View()) < WorkLeft(old(View()))
    {
      hide Inv, Next, KeysRight, Called, LeadAfter, TurnActs, WorkLeft, Run;
      ghost var s, lead := View(), leadTime;
      TurnIsCallsAndWork(s, turn, lead);
      Clients(turn.clients);
      WorkSection(turn.now);
    }

    /** The worker's thread from its start, section by section, with a turn of clients before each; `n` turns are
        taken.  It ends when the worker has returned, or when the timer runs on and nobody calls any more. */
    method Work(world: seq<Turn>) returns (ended: bool, n: nat)
      requires Valid() && pc == Starting
      modifies this
      ensures Valid() && View() == After(old(View()), old(leadTime), world, n)
      ensures InOrder(old(View()), Story(old(View()), old(leadTime), world, n))
      ensures if ended then pc == Returned else runFlag && n == |world|
      ensures ended ==> AllCalledBack(View())
    {
      hide Inv, KeysRight, TurnActs, Story, WorkLeft, LeadAt, Run, AllCalledBack, DrainedStops, InOrder;
      ghost var s, lead := View(), leadTime;
      AfterNone(s, lead, world);
      NothingStranded(s);
      n := 0;
      while pc != Returned
        invariant Valid() && View() == After(s, lead, world, n) && leadTime == LeadAt(lead, world, n)
        invariant n <= |world| || !runFlag
        decreases if n < |world| then |world| - n else 0, if runFlag then 0 else WorkLeft(View())
      {
        if n >= |world| && runFlag {
          AlwaysInOrder(s, Story(s, lead, world, n));
          return false, n;
        }
        AfterTurn(s, lead, world, n);
        TakeTurn(TurnAt(world, n));
        n := n + 1;
      }
      ReturnsExactly(s, Story(s, lead, world, n));
      AlwaysInOrder(s, Story(s, lead, world, n));
      return true, n;
    }
  }
}
