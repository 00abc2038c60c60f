/** The protocol that both timers follow, as a state machine over its locked sections.

    One value of `State` is the timer's shared state, the worker thread's local lists and
    the history of what has happened.  Client calls and worker sections are the `Action`s;
    a run is any sequence of them in any order. */
module TimerSpec {
  import opened Options

  const TWO64: nat := 0x1_0000_0000_0000_0000
  const TWO63: nat := 0x8000_0000_0000_0000

  /** `TreeTimer` is `Timer` (a red-black tree of records); `MapTimer` is `Timer2` (a map by (time, id)). */
  datatype Kind = TreeTimer | MapTimer

  /** A record made by StartTask: the client's task and its absolute deadline. */
  datatype Record = Record(task: nat, time: nat)

  datatype Outcome = Success | TaskStop | TimerStop

  /** One callback: which record, with which result. */
  datatype Delivery = Delivery(id: nat, outcome: Outcome)

  /** Where the worker is between two of its locked sections or callbacks. */
  datatype Pc =
    | Starting
    | Firing
    | Sleeping(notified: bool, since: nat, wakeBy: Option<int>)
    | Leaving
    | Draining
    | Returned

  datatype State = State(
    kind: Kind,
    run: bool,
    nextId: nat,
    records: map<nat, Record>,
    timerData: map<nat, nat>,
    tree: seq<nat>,
    stops: seq<nat>,
    needExecute: seq<nat>,
    needStop: seq<nat>,
    residue: seq<nat>,
    pc: Pc,
    log: seq<Delivery>,
    due: map<nat, nat>,
    stopped: set<nat>)

  datatype Action =
    | StartTask(task: nat, time: nat)
    | StopTask(task: nat)
    | Shutdown
    | Work(now: nat, lead: nat)

  function Init(kind: Kind): State {
    State(kind, true, 1, map[], map[], [], [], [], [], [], Starting, [], map[], {})
  }

  // ----- 64-bit arithmetic

  function Wrap(x: int): nat {
    x % TWO64
  }

  /** A 64-bit pattern read as a signed number. */
  function Signed(x: nat): int {
    if x < TWO63 then x else x - TWO64
  }

  /** The instant at which a sleep started at `now` for the earliest deadline ends:
      the unsigned difference wraps, and the duration reads it as signed. */
  function WakeInstant(time: nat, now: nat): int {
    now + Signed(Wrap(time - now))
  }

  // ----- the ordered queue

  /** Whether a record lies at or before the upper bound used by the gather. */
  predicate IsDue(kind: Kind, id: nat, time: nat, deadline: nat) {
    match kind
    case TreeTimer => time <= deadline
    case MapTimer => time < deadline || (time == deadline && id <= 0)
  }

  /** Where a record with this time is inserted: behind every record that is not later. */
  function InsertIndex(records: map<nat, Record>, q: seq<nat>, time: nat): (k: nat)
    requires forall id | id in q :: id in records
    ensures k <= |q|
  {
    if q == [] || time < records[q[0]].time then 0 else 1 + InsertIndex(records, q[1..], time)
  }

  /** How many records at the front of the queue are due. */
  function DueCount(kind: Kind, records: map<nat, Record>, q: seq<nat>, deadline: nat): (k: nat)
    requires forall id | id in q :: id in records
    ensures k <= |q|
  {
    if q == [] || !IsDue(kind, q[0], records[q[0]].time, deadline) then 0
    else 1 + DueCount(kind, records, q[1..], deadline)
  }

  /** A list after one record has been taken out of it. */
  function Without(q: seq<nat>, id: nat): seq<nat> {
    if q == [] then [] else if q[0] == id then q[1..] else [q[0]] + Without(q[1..], id)
  }

  // ----- the transitions

  function Notify(pc: Pc): Pc {
    if pc.Sleeping? then pc.(notified := true) else pc
  }

  predicate Enabled(s: State, a: Action) {
    match a
    case StartTask(task, time) => s.run && task !in s.timerData && time < TWO64
    case StopTask(task) => true
    case Shutdown => true
    case Work(now, lead) => s.pc != Returned
  }

  /** A record is undelivered while one of the lists holds it. */
  predicate Waiting(s: State, id: nat) {
    id in s.tree || id in s.stops || id in s.needExecute || id in s.needStop || id in s.residue
  }

  /** Every waiting id has a record; what the queue operations need. */
  ghost predicate Recorded(s: State) {
    && (forall id | id in s.tree :: id in s.records)
    && (forall id | id in s.stops :: id in s.records)
    && (forall id | id in s.needExecute :: id in s.records)
    && (forall id | id in s.needStop :: id in s.records)
    && (forall id | id in s.residue :: id in s.records)
    && (forall t | t in s.timerData :: s.timerData[t] in s.records)
  }

  function Next(s: State, a: Action): State
    requires Recorded(s) && Enabled(s, a)
  {
    match a
    case StartTask(task, time) => NextStart(s, task, time)
    case StopTask(task) => NextStop(s, task)
    case Shutdown => NextShutdown(s)
    case Work(now, lead) => NextWork(s, now, lead)
  }

  function NextStart(s: State, task: nat, time: nat): State
    requires Recorded(s)
  {
    var k := InsertIndex(s.records, s.tree, time);
    s.(nextId := s.nextId + 1,
       records := s.records[s.nextId := Record(task, time)],
       timerData := s.timerData[task := s.nextId],
       tree := s.tree[..k] + [s.nextId] + s.tree[k..],
       pc := Notify(s.pc))
  }

  function StopQueued(s: State, id: nat): State {
    s.(tree := Without(s.tree, id), stops := s.stops + [id], stopped := s.stopped + {id}, pc := Notify(s.pc))
  }

  function StopResidue(s: State, id: nat): State {
    s.(residue := Without(s.residue, id), stops := s.stops + [id], pc := Notify(s.pc))
  }

  /** `Timer` finds the record's node through the record itself, so after the drain swap it still
      takes the record out of the tree the worker is draining; `Timer2` looks its key up and misses. */
  function NextStop(s: State, task: nat): State {
    if task !in s.timerData then s
    else if s.timerData[task] in s.tree then StopQueued(s, s.timerData[task])
    else if s.kind == TreeTimer && s.timerData[task] in s.residue then StopResidue(s, s.timerData[task])
    else s
  }

  function NextShutdown(s: State): State {
    if s.run then s.(run := false, pc := Notify(s.pc)) else s
  }

  function GatherAt(s: State, k: nat, deadline: nat): State
    requires k <= |s.tree|
  {
    s.(tree := s.tree[k..],
       needExecute := s.needExecute + s.tree[..k],
       needStop := s.stops,
       stops := s.needStop,
       due := s.due + (map id | id in s.tree[..k] :: deadline),
       pc := Firing)
  }

  function Gather(s: State, now: nat, lead: nat): State
    requires Recorded(s)
  {
    GatherAt(s, DueCount(s.kind, s.records, s.tree, Wrap(now + lead)), Wrap(now + lead))
  }

  /** A callback: the task forgets its record before the client's function runs. */
  function Deliver(s: State, id: nat, outcome: Outcome): State
    requires id in s.records
  {
    s.(timerData := s.timerData - {s.records[id].task}, log := s.log + [Delivery(id, outcome)])
  }

  predicate CanFire(s: State, outcome: Outcome) {
    match outcome
    case Success => s.needExecute != []
    case TaskStop => s.needStop != []
    case TimerStop => s.residue != []
  }

  function Fire(s: State, outcome: Outcome): State
    requires Recorded(s) && CanFire(s, outcome)
  {
    match outcome
    case Success => Deliver(s, s.needExecute[0], Success).(needExecute := s.needExecute[1..])
    case TaskStop => Deliver(s, s.needStop[0], TaskStop).(needStop := s.needStop[1..])
    case TimerStop => Deliver(s, s.residue[0], TimerStop).(residue := s.residue[1..])
  }

  function Sleep(s: State, now: nat): State
    requires Recorded(s)
  {
    s.(pc := Sleeping(false, now, if s.tree == [] then None else Some(WakeInstant(s.records[s.tree[0]].time, now))))
  }

  function Drain(s: State): State {
    s.(residue := s.tree, tree := s.residue, needStop := s.stops, stops := s.needStop, pc := Draining)
  }

  function NextWork(s: State, now: nat, lead: nat): State
    requires Recorded(s) && s.pc != Returned
  {
    match s.pc
    case Starting => Gather(s, now, lead)
    case Firing =>
      if s.needExecute != [] then Fire(s, Success)
      else if s.needStop != [] then Fire(s, TaskStop)
      else if !s.run then s.(pc := Leaving)
      else if s.stops != [] then Gather(s, now, lead)
      else Sleep(s, now)
    case Sleeping(_, _, _) => if !s.run then s.(pc := Leaving) else Gather(s, now, lead)
    case Leaving => Drain(s)
    case Draining =>
      if s.needStop != [] then Fire(s, TaskStop)
      else if s.residue != [] then Fire(s, TimerStop)
      else s.(pc := Returned)
  }

  // ----- the invariant

  function Fired(log: seq<Delivery>): multiset<nat> {
    if log == [] then multiset{} else Fired(log[..|log| - 1]) + multiset{log[|log| - 1].id}
  }

  /** How often the worker's and the clients' lists hold a record. */
  function Held(s: State, id: nat): nat {
    multiset(s.tree)[id] + multiset(s.stops)[id] + multiset(s.needExecute)[id] + multiset(s.needStop)[id]
    + multiset(s.residue)[id]
  }

  /** Every record ever started is in exactly one place: a queue, a batch, the residue, or delivered. */
  ghost predicate Conserved(s: State) {
    && s.nextId >= 1
    && (forall i :: i in s.records <==> 1 <= i < s.nextId)
    && (forall id :: Held(s, id) + Fired(s.log)[id] == if id in s.records then 1 else 0)
  }

  /** A task points at its record exactly while that record is undelivered. */
  ghost predicate Linked(s: State)
    requires Recorded(s)
  {
    && (forall t | t in s.timerData :: Waiting(s, s.timerData[t]) && s.records[s.timerData[t]].task == t)
    && (forall id | Waiting(s, id) :: s.records[id].task in s.timerData && s.timerData[s.records[id].task] == id)
  }

  predicate Before(records: map<nat, Record>, a: nat, b: nat)
    requires a in records && b in records
  {
    records[a].time < records[b].time || (records[a].time == records[b].time && a < b)
  }

  ghost predicate Ordered(records: map<nat, Record>, q: seq<nat>)
    requires forall id | id in q :: id in records
  {
    forall i, j | 0 <= i < j < |q| :: Before(records, q[i], q[j])
  }

  /** What the worker's position says about its lists and about who may have to wake it. */
  ghost predicate Phase(s: State)
    requires Recorded(s)
  {
    match s.pc
    case Starting => s.needExecute == s.needStop == s.residue == [] && s.log == []
    case Firing => s.residue == []
    case Sleeping(notified, since, wakeBy) =>
      && s.needExecute == s.needStop == s.residue == []
      && (!notified ==>
          && s.run
          && s.stops == []
          && wakeBy == if s.tree == [] then None else Some(WakeInstant(s.records[s.tree[0]].time, since)))
    case Leaving => !s.run && s.needExecute == s.needStop == s.residue == []
    case Draining => !s.run && s.needExecute == s.tree == [] && (s.kind == MapTimer ==> s.stops == [])
    case Returned =>
      !s.run && s.needExecute == s.needStop == s.tree == s.residue == [] && (s.kind == MapTimer ==> s.stops == [])
  }

  ghost predicate DeliveryJustified(s: State, d: Delivery) {
    && d.id in s.records
    && match d.outcome
       case Success => d.id in s.due && d.id !in s.stopped
       case TaskStop => d.id in s.stopped && d.id !in s.due
       case TimerStop => !s.run && d.id !in s.due && d.id !in s.stopped
  }

  predicate AfterSwap(pc: Pc) {
    pc.Draining? || pc.Returned?
  }

  /** Each list holds records with the history that its callback result will claim. */
  ghost predicate Justified(s: State) {
    && (forall id | id in s.due :: id in s.records && IsDue(s.kind, id, s.records[id].time, s.due[id]))
    && (forall id | id in s.stopped :: id in s.records)
    && (forall id | id in s.tree :: id !in s.due && id !in s.stopped)
    && (forall id | id in s.residue :: id !in s.due && id !in s.stopped)
    && (forall id | id in s.stops && !AfterSwap(s.pc) :: id in s.stopped && id !in s.due)
    && (forall id | id in s.needStop :: id in s.stopped && id !in s.due)
    && (forall id | id in s.needExecute :: id in s.due && id !in s.stopped)
    && (forall d | d in s.log :: DeliveryJustified(s, d))
  }

  ghost predicate Inv(s: State): (b: bool)
    ensures b ==> Recorded(s)
  {
    && Recorded(s)
    && Conserved(s)
    && Linked(s)
    && Ordered(s.records, s.tree)
    && Ordered(s.records, s.residue)
    && Phase(s)
    && Justified(s)
  }

  // ----- lemmas about the queue

  lemma {:induction false} WithoutCounts(q: seq<nat>, id: nat)
    ensures multiset(Without(q, id)) == if id in q then multiset(q) - multiset{id} else multiset(q)
    ensures forall x | x in Without(q, id) :: x in q
  {
    if q != [] {
      assert q == [q[0]] + q[1..];
      if q[0] != id {
        WithoutCounts(q[1..], id);
        assert multiset(Without(q, id)) == multiset{q[0]} + multiset(Without(q[1..], id));
      }
    }
  }

  lemma FiredAppend(log: seq<Delivery>, d: Delivery)
    ensures Fired(log + [d]) == Fired(log) + multiset{d.id}
  {
    assert (log + [d])[..|log|] == log;
  }

  /** A waiting record is held once and has not been delivered. */
  lemma HeldOnce(s: State, id: nat)
    requires Conserved(s) && Waiting(s, id)
    ensures id in s.records && id !in Fired(s.log) && Held(s, id) == 1
  {
    assert Held(s, id) >= 1;
  }

  /** The insert position has no later record before it and only later ones behind it. */
  lemma {:induction false} InsertIndexSplits(records: map<nat, Record>, q: seq<nat>, time: nat)
    requires forall id | id in q :: id in records
    requires Ordered(records, q)
    ensures var k := InsertIndex(records, q, time);
            && (forall i | 0 <= i < k :: records[q[i]].time <= time)
            && (forall i | k <= i < |q| :: time < records[q[i]].time)
  {
    if q == [] {
    } else if time < records[q[0]].time {
      forall i | 0 <= i < |q| ensures time < records[q[i]].time {
        assert i > 0 ==> Before(records, q[0], q[i]);
      }
    } else {
      InsertIndexSplits(records, q[1..], time);
      var k := InsertIndex(records, q[1..], time);
      forall i | 0 <= i < k + 1 ensures records[q[i]].time <= time {
        assert i > 0 ==> q[i] == q[1..][i - 1];
      }
      forall i | k + 1 <= i < |q| ensures time < records[q[i]].time {
        assert q[i] == q[1..][i - 1];
      }
    }
  }

  /** The gather's bound separates the due records from the others. */
  lemma {:induction false} DueCountSplits(kind: Kind, records: map<nat, Record>, q: seq<nat>, deadline: nat)
    requires forall id | id in q :: id in records
    requires Ordered(records, q)
    ensures var k := DueCount(kind, records, q, deadline);
            && (forall i | 0 <= i < k :: IsDue(kind, q[i], records[q[i]].time, deadline))
            && (forall i | k <= i < |q| :: !IsDue(kind, q[i], records[q[i]].time, deadline))
  {
    if q == [] {
    } else if !IsDue(kind, q[0], records[q[0]].time, deadline) {
      forall i | 0 <= i < |q| ensures !IsDue(kind, q[i], records[q[i]].time, deadline) {
        assert i > 0 ==> Before(records, q[0], q[i]);
      }
    } else {
      DueCountSplits(kind, records, q[1..], deadline);
      var k := DueCount(kind, records, q[1..], deadline);
      forall i | 0 <= i < k + 1 ensures IsDue(kind, q[i], records[q[i]].time, deadline) {
        assert i > 0 ==> q[i] == q[1..][i - 1];
      }
      forall i | k + 1 <= i < |q| ensures !IsDue(kind, q[i], records[q[i]].time, deadline) {
        assert q[i] == q[1..][i - 1];
      }
    }
  }

  lemma OrderedCons(records: map<nat, Record>, x: nat, r: seq<nat>)
    requires x in records && forall y | y in r :: y in records && Before(records, x, y)
    requires Ordered(records, r)
    ensures Ordered(records, [x] + r)
  {
    forall i, j | 0 <= i < j < |r| + 1 ensures Before(records, ([x] + r)[i], ([x] + r)[j]) {
      if i == 0 {
        assert r[j - 1] in r;
      } else {
        assert Before(records, r[i - 1], r[j - 1]);
      }
    }
  }

  lemma OrderedTail(records: map<nat, Record>, q: seq<nat>)
    requires q != [] && (forall x | x in q :: x in records)
    requires Ordered(records, q)
    ensures Ordered(records, q[1..])
    ensures forall x | x in q[1..] :: Before(records, q[0], x)
  {
    forall i, j | 0 <= i < j < |q| - 1 ensures Before(records, q[1..][i], q[1..][j]) {
      assert Before(records, q[i + 1], q[j + 1]);
    }
    forall x | x in q[1..] ensures Before(records, q[0], x) {
      var i :| 0 <= i < |q| - 1 && q[1..][i] == x;
      assert Before(records, q[0], q[i + 1]);
    }
  }

  lemma {:induction false} WithoutOrdered(records: map<nat, Record>, q: seq<nat>, id: nat)
    requires forall x | x in q :: x in records
    requires Ordered(records, q)
    ensures forall x | x in Without(q, id) :: x in records
    ensures Ordered(records, Without(q, id))
  {
    if q != [] {
      OrderedTail(records, q);
      if q[0] != id {
        WithoutCounts(q[1..], id);
        hide Before, Ordered;
        WithoutOrdered(records, q[1..], id);
        OrderedCons(records, q[0], Without(q[1..], id));
      }
    }
  }

  // ----- every action keeps the invariant

  lemma InitInv(kind: Kind)
    ensures Inv(Init(kind))
  {
  }

  lemma LogKept(s: State, t: State)
    requires forall d | d in s.log :: DeliveryJustified(s, d)
    requires s.log == t.log && s.due == t.due && s.stopped == t.stopped
    requires s.records.Keys <= t.records.Keys && (t.run ==> s.run)
    ensures forall d | d in t.log :: DeliveryJustified(t, d)
  {
    forall d | d in t.log ensures DeliveryJustified(t, d) { assert DeliveryJustified(s, d); }
  }

  /** A newer record goes behind the records that are not later and before the later ones. */
  lemma InsertKeepsOrder(records: map<nat, Record>, q: seq<nat>, k: nat, id: nat, r: Record)
    requires forall x | x in q :: x in records && x < id
    requires Ordered(records, q) && k <= |q|
    requires forall i | 0 <= i < k :: records[q[i]].time <= r.time
    requires forall i | k <= i < |q| :: r.time < records[q[i]].time
    ensures forall x | x in q[..k] + [id] + q[k..] :: x in records[id := r]
    ensures Ordered(records[id := r], q[..k] + [id] + q[k..])
  {
    var t := q[..k] + [id] + q[k..];
    var rs := records[id := r];
    forall i | 0 <= i < |q| ensures q[i] in rs && rs[q[i]] == records[q[i]] && q[i] < id { assert q[i] in q; }
    forall i, j | 0 <= i < j < |t| ensures t[i] in rs && t[j] in rs && Before(rs, t[i], t[j]) {
      var a := if i < k then i else i - 1;
      var b := if j < k then j else j - 1;
      assert i != k ==> t[i] == q[a];
      assert j != k ==> t[j] == q[b];
      if i != k && j != k { assert Before(records, q[a], q[b]); }
    }
  }

  lemma StartWaiting(s: State, task: nat, time: nat)
    requires Recorded(s)
    ensures var t := NextStart(s, task, time);
            && (forall id :: id in t.tree <==> id in s.tree || id == s.nextId)
            && (forall id :: Waiting(t, id) <==> Waiting(s, id) || id == s.nextId)
            && (forall id :: Held(t, id) == Held(s, id) + if id == s.nextId then 1 else 0)
  {
    var t := NextStart(s, task, time);
    var k := InsertIndex(s.records, s.tree, time);
    assert s.tree == s.tree[..k] + s.tree[k..];
    assert forall id :: id in s.tree <==> id in s.tree[..k] || id in s.tree[k..];
  }

  lemma StartConserved(s: State, task: nat, time: nat)
    requires Recorded(s) && Conserved(s)
    ensures Conserved(NextStart(s, task, time))
  {
    var t := NextStart(s, task, time);
    StartWaiting(s, task, time);
    assert forall id ::
        Held(t, id) + Fired(t.log)[id] == Held(s, id) + Fired(s.log)[id] + if id == s.nextId then 1 else 0;
  }

  lemma StartLinked(s: State, task: nat, time: nat)
    requires Recorded(s) && Linked(s) && task !in s.timerData && s.nextId !in s.records
    ensures Recorded(NextStart(s, task, time)) && Linked(NextStart(s, task, time))
  {
    StartWaiting(s, task, time);
  }

  lemma StartOrdered(s: State, task: nat, time: nat)
    requires Recorded(s) && Ordered(s.records, s.tree) && Ordered(s.records, s.residue)
    requires forall i :: i in s.records <==> 1 <= i < s.nextId
    requires Recorded(NextStart(s, task, time))
    ensures var t := NextStart(s, task, time);
            Ordered(t.records, t.tree) && Ordered(t.records, t.residue)
  {
    var t := NextStart(s, task, time);
    InsertIndexSplits(s.records, s.tree, time);
    InsertKeepsOrder(s.records, s.tree, InsertIndex(s.records, s.tree, time), s.nextId, Record(task, time));
    forall i, j | 0 <= i < j < |s.residue| ensures Before(t.records, s.residue[i], s.residue[j]) {
      assert s.residue[i] in s.residue && s.residue[j] in s.residue;
      assert Before(s.records, s.residue[i], s.residue[j]);
    }
  }

  lemma StartJustified(s: State, task: nat, time: nat)
    requires Recorded(s) && Justified(s) && s.run && s.nextId !in s.records
    ensures Justified(NextStart(s, task, time))
  {
    var t := NextStart(s, task, time);
    StartWaiting(s, task, time);
    LogKept(s, t);
  }

  lemma StartKeepsInv(s: State, task: nat, time: nat)
    requires Inv(s) && s.run && task !in s.timerData
    ensures Inv(NextStart(s, task, time))
  {
    var t := NextStart(s, task, time);
    StartConserved(s, task, time);
    StartLinked(s, task, time);
    StartOrdered(s, task, time);
    StartJustified(s, task, time);
  }

  /** A transition that only moves records between the lists keeps the bookkeeping. */
  lemma MoveKeeps(s: State, t: State)
    requires Recorded(s) && Conserved(s) && Linked(s)
    requires t.records == s.records && t.nextId == s.nextId && t.timerData == s.timerData && t.log == s.log
    requires forall id :: Held(t, id) == Held(s, id)
    ensures Recorded(t) && Conserved(t) && Linked(t)
  {
    WaitingIsHeld(s);
    WaitingIsHeld(t);
    forall id | Waiting(t, id) ensures Waiting(s, id) { assert Held(t, id) == Held(s, id); }
    forall id | Waiting(s, id) ensures Waiting(t, id) { assert Held(t, id) == Held(s, id); }
    RecordedWhenWaiting(t);
  }

  lemma WaitingIsHeld(s: State)
    ensures forall id :: Waiting(s, id) <==> Held(s, id) > 0
  {
  }

  lemma RecordedWhenWaiting(t: State)
    requires forall id | Waiting(t, id) :: id in t.records
    requires forall x | x in t.timerData :: t.timerData[x] in t.records
    ensures Recorded(t)
  {
    forall id | id in t.tree || id in t.stops || id in t.needExecute || id in t.needStop || id in t.residue
      ensures id in t.records
    {
      assert Waiting(t, id);
    }
  }

  /** A queued record is on no other list, nor queued twice. */
  lemma TreeAlone(s: State, id: nat)
    requires Conserved(s) && id in s.tree
    ensures id !in Without(s.tree, id)
    ensures id !in s.needExecute && id !in s.needStop && id !in s.stops && id !in s.residue
    ensures id !in Fired(s.log)
  {
    HeldOnce(s, id);
    assert multiset(s.tree)[id] == 1;
    WithoutCounts(s.tree, id);
    assert id !in multiset(Without(s.tree, id));
  }

  lemma {:induction false} FiredHas(log: seq<Delivery>, i: nat)
    requires i < |log|
    ensures log[i].id in Fired(log)
  {
    if i < |log| - 1 {
      FiredHas(log[..|log| - 1], i);
      assert log[..|log| - 1][i] == log[i];
    }
  }

  lemma LoggedIsFired(log: seq<Delivery>, d: Delivery)
    requires d in log
    ensures d.id in Fired(log)
  {
    var i :| 0 <= i < |log| && log[i] == d;
    FiredHas(log, i);
  }

  lemma StopQueuedLog(s: State, id: nat)
    requires Inv(s) && id in s.tree
    ensures forall d | d in s.log :: DeliveryJustified(StopQueued(s, id), d)
  {
    TreeAlone(s, id);
    forall d | d in s.log ensures DeliveryJustified(StopQueued(s, id), d) {
      LoggedIsFired(s.log, d);
      assert DeliveryJustified(s, d);
    }
  }

  lemma StopQueuedJustified(s: State, id: nat)
    requires Justified(s) && id in s.records
    requires id in s.tree && id !in Without(s.tree, id) && id !in s.needExecute && id !in s.residue
    requires forall d | d in s.log :: DeliveryJustified(StopQueued(s, id), d)
    ensures Justified(StopQueued(s, id))
  {
    var t := StopQueued(s, id);
    WithoutCounts(s.tree, id);
    forall x | x in t.tree ensures x !in t.due && x !in t.stopped { assert x in s.tree && x != id; }
    forall x | x in t.stops && !AfterSwap(t.pc) ensures x in t.stopped && x !in t.due {
      assert x in s.stops || x == id;
    }
  }

  lemma StopQueuedMoves(s: State, id: nat)
    requires Recorded(s) && Conserved(s) && Linked(s) && id in s.tree
    ensures var t := StopQueued(s, id); Recorded(t) && Conserved(t) && Linked(t)
  {
    var t := StopQueued(s, id);
    WithoutCounts(s.tree, id);
    forall x ensures Held(t, x) == Held(s, x) {}
    MoveKeeps(s, t);
  }

  lemma StopQueuedPhase(s: State, id: nat)
    requires Recorded(s) && Phase(s) && id in s.tree && Recorded(StopQueued(s, id))
    ensures Phase(StopQueued(s, id))
  {
  }

  lemma StopQueuedKeepsInv(s: State, id: nat)
    requires Inv(s) && id in s.tree
    ensures Inv(StopQueued(s, id))
  {
    var t := StopQueued(s, id);
    StopQueuedMoves(s, id);
    WithoutOrdered(s.records, s.tree, id);
    TreeAlone(s, id);
    StopQueuedLog(s, id);
    StopQueuedPhase(s, id);
    hide Conserved, Linked, Ordered, DeliveryJustified;
    StopQueuedJustified(s, id);
  }

  lemma StopResidueJustified(s: State, id: nat)
    requires Inv(s) && id in s.residue
    ensures Justified(StopResidue(s, id))
  {
    var t := StopResidue(s, id);
    LogKept(s, t);
    WithoutCounts(s.residue, id);
    assert AfterSwap(t.pc);
    forall x | x in t.residue ensures x !in t.due && x !in t.stopped { assert x in s.residue; }
  }

  lemma StopResidueKeepsInv(s: State, id: nat)
    requires Inv(s) && s.kind == TreeTimer && id in s.residue
    ensures Inv(StopResidue(s, id))
  {
    var t := StopResidue(s, id);
    WithoutCounts(s.residue, id);
    forall x ensures Held(t, x) == Held(s, x) {}
    MoveKeeps(s, t);
    WithoutOrdered(s.records, s.residue, id);
    StopResidueJustified(s, id);
  }

  lemma GatherAtKeeps(s: State, k: nat, deadline: nat)
    requires Recorded(s) && Conserved(s) && Linked(s) && Ordered(s.records, s.tree)
    requires k <= |s.tree| && s.needStop == []
    ensures var t := GatherAt(s, k, deadline);
            Recorded(t) && Conserved(t) && Linked(t) && Ordered(t.records, t.tree)
  {
    var t := GatherAt(s, k, deadline);
    assert s.tree == s.tree[..k] + s.tree[k..];
    forall x ensures Held(t, x) == Held(s, x) {}
    MoveKeeps(s, t);
    forall i, j | 0 <= i < j < |t.tree| ensures Before(t.records, t.tree[i], t.tree[j]) {
      assert Before(s.records, s.tree[k + i], s.tree[k + j]);
    }
  }

  lemma GatherAtApart(s: State, k: nat, id: nat)
    requires Conserved(s) && k <= |s.tree| && id in s.tree[..k]
    ensures id in s.tree && id !in s.tree[k..] && id !in s.stops && id !in s.residue && id !in Fired(s.log)
  {
    assert s.tree == s.tree[..k] + s.tree[k..];
    assert id in s.tree;
    HeldOnce(s, id);
    assert multiset(s.tree)[id] == multiset(s.tree[..k])[id] + multiset(s.tree[k..])[id];
  }

  lemma GatherAtLog(s: State, k: nat, deadline: nat)
    requires Conserved(s) && Justified(s) && k <= |s.tree|
    ensures var t := GatherAt(s, k, deadline);
            forall d | d in t.log :: DeliveryJustified(t, d)
  {
    var t := GatherAt(s, k, deadline);
    forall d | d in t.log ensures DeliveryJustified(t, d) {
      assert DeliveryJustified(s, d);
      LoggedIsFired(s.log, d);
      if d.id in s.tree[..k] { GatherAtApart(s, k, d.id); }
    }
  }

  lemma GatherAtJustified(s: State, k: nat, deadline: nat)
    requires Recorded(s) && Conserved(s) && Justified(s) && k <= |s.tree|
    requires s.needStop == s.residue == [] && !AfterSwap(s.pc)
    requires forall i | 0 <= i < k :: IsDue(s.kind, s.tree[i], s.records[s.tree[i]].time, deadline)
    ensures Justified(GatherAt(s, k, deadline))
  {
    var t := GatherAt(s, k, deadline);
    GatherAtLog(s, k, deadline);
    forall id | id in t.due ensures id in t.records && IsDue(t.kind, id, t.records[id].time, t.due[id]) {
      if id in s.tree[..k] { assert id in s.tree; }
    }
    forall id | id in t.tree ensures id !in t.due && id !in t.stopped {
      assert id in s.tree;
      if id in s.tree[..k] { GatherAtApart(s, k, id); }
    }
    forall id | id in t.needStop ensures id in t.stopped && id !in t.due {
      if id in s.tree[..k] { GatherAtApart(s, k, id); }
    }
    forall id | id in t.needExecute ensures id in t.due && id !in t.stopped {
      if id in s.tree[..k] { assert id in s.tree; }
    }
  }

  lemma GatherKeepsInv(s: State, now: nat, lead: nat)
    requires Inv(s) && s.needStop == s.residue == [] && !AfterSwap(s.pc)
    ensures Inv(Gather(s, now, lead))
  {
    var deadline := Wrap(now + lead);
    var k := DueCount(s.kind, s.records, s.tree, deadline);
    DueCountSplits(s.kind, s.records, s.tree, deadline);
    GatherAtKeeps(s, k, deadline);
    GatherAtJustified(s, k, deadline);
  }

  /** Delivering a held record once: it leaves its list and its task forgets it. */
  lemma DeliverConserves(s: State, id: nat, outcome: Outcome, t: State)
    requires Conserved(s)
    requires t.records == s.records && t.nextId == s.nextId
    requires t.log == s.log + [Delivery(id, outcome)]
    requires forall x :: Held(t, x) == Held(s, x) - if x == id then 1 else 0
    ensures Conserved(t)
  {
    FiredAppend(s.log, Delivery(id, outcome));
    forall x ensures Held(t, x) + Fired(t.log)[x] == if x in t.records then 1 else 0 {
      assert Held(t, x) + Fired(t.log)[x] == Held(s, x) + Fired(s.log)[x];
    }
  }

  lemma DeliverUnlinks(s: State, id: nat, t: State)
    requires Recorded(s) && Linked(s) && Waiting(s, id) && Held(s, id) == 1
    requires t.records == s.records
    requires t.timerData == s.timerData - {s.records[id].task}
    requires forall x :: Held(t, x) == Held(s, x) - if x == id then 1 else 0
    ensures Recorded(t) && Linked(t)
  {
    WaitingIsHeld(s);
    WaitingIsHeld(t);
    forall x ensures Waiting(t, x) <==> Waiting(s, x) && x != id {
      assert Held(t, x) == Held(s, x) - if x == id then 1 else 0;
    }
    RecordedWhenWaiting(t);
  }

  function FireId(s: State, outcome: Outcome): nat
    requires CanFire(s, outcome)
  {
    match outcome
    case Success => s.needExecute[0]
    case TaskStop => s.needStop[0]
    case TimerStop => s.residue[0]
  }

  lemma FireHeld(s: State, outcome: Outcome, x: nat)
    requires Recorded(s) && CanFire(s, outcome)
    ensures Held(Fire(s, outcome), x) == Held(s, x) - if x == FireId(s, outcome) then 1 else 0
  {
    match outcome
    case Success => assert s.needExecute == [s.needExecute[0]] + s.needExecute[1..];
    case TaskStop => assert s.needStop == [s.needStop[0]] + s.needStop[1..];
    case TimerStop => assert s.residue == [s.residue[0]] + s.residue[1..];
  }

  lemma FireBookkeeping(s: State, outcome: Outcome)
    requires Recorded(s) && Conserved(s) && Linked(s) && CanFire(s, outcome)
    ensures var t := Fire(s, outcome);
            Recorded(t) && Conserved(t) && Linked(t)
  {
    var t := Fire(s, outcome);
    var id := FireId(s, outcome);
    assert Waiting(s, id);
    forall x ensures Held(t, x) == Held(s, x) - if x == id then 1 else 0 { FireHeld(s, outcome, x); }
    HeldOnce(s, id);
    DeliverConserves(s, id, outcome, t);
    DeliverUnlinks(s, id, t);
  }

  lemma FireKeepsInv(s: State, outcome: Outcome)
    requires Inv(s)
    requires match outcome
             case Success => s.pc.Firing? && s.needExecute != []
             case TaskStop => (s.pc.Firing? || s.pc.Draining?) && s.needExecute == [] && s.needStop != []
             case TimerStop => s.pc.Draining? && s.residue != []
    ensures Inv(Fire(s, outcome))
  {
    var t := Fire(s, outcome);
    FireBookkeeping(s, outcome);
    assert Ordered(t.records, t.residue) by {
      forall i, j | 0 <= i < j < |t.residue| ensures Before(t.records, t.residue[i], t.residue[j]) {
        if outcome.TimerStop? { assert Before(s.records, s.residue[i + 1], s.residue[j + 1]); }
      }
    }
    FireJustified(s, outcome);
  }

  lemma FireJustified(s: State, outcome: Outcome)
    requires Recorded(s) && Justified(s)
    requires match outcome
             case Success => s.needExecute != []
             case TaskStop => s.needStop != []
             case TimerStop => !s.run && s.residue != []
    ensures Justified(Fire(s, outcome))
  {
    var t := Fire(s, outcome);
    forall d | d in t.log ensures DeliveryJustified(t, d) {
      if d in s.log {
        assert DeliveryJustified(s, d);
      }
    }
    forall id | id in t.needExecute ensures id in t.due && id !in t.stopped { assert id in s.needExecute; }
    forall id | id in t.needStop ensures id in t.stopped && id !in t.due { assert id in s.needStop; }
    forall id | id in t.residue ensures id !in t.due && id !in t.stopped { assert id in s.residue; }
  }

  lemma DrainJustified(s: State)
    requires Recorded(s) && Justified(s) && s.needStop == s.residue == [] && !AfterSwap(s.pc)
    ensures Justified(Drain(s))
  {
    LogKept(s, Drain(s));
  }

  lemma DrainKeepsInv(s: State)
    requires Inv(s) && s.pc.Leaving?
    ensures Inv(Drain(s))
  {
    forall x ensures Held(Drain(s), x) == Held(s, x) {}
    MoveKeeps(s, Drain(s));
    DrainJustified(s);
  }

  lemma WorkKeepsInv(s: State, now: nat, lead: nat)
    requires Inv(s) && s.pc != Returned
    ensures Inv(NextWork(s, now, lead))
  {
    match s.pc
    case Starting => GatherKeepsInv(s, now, lead);
    case Firing =>
      if s.needExecute != [] {
        FireKeepsInv(s, Success);
      } else if s.needStop != [] {
        FireKeepsInv(s, TaskStop);
      } else if !s.run {
        PcKeepsInv(s, Leaving);
      } else if s.stops != [] {
        GatherKeepsInv(s, now, lead);
      } else {
        PcKeepsInv(s, Sleep(s, now).pc);
      }
    case Sleeping(_, _, _) =>
      if !s.run { PcKeepsInv(s, Leaving); } else { GatherKeepsInv(s, now, lead); }
    case Leaving => DrainKeepsInv(s);
    case Draining =>
      if s.needStop != [] {
        FireKeepsInv(s, TaskStop);
      } else if s.residue != [] {
        FireKeepsInv(s, TimerStop);
      } else {
        PcKeepsInv(s, Returned);
      }
  }

  lemma PcKeepsInv(s: State, pc: Pc)
    requires Inv(s) && Phase(s.(pc := pc)) && AfterSwap(pc) == AfterSwap(s.pc)
    ensures Inv(s.(pc := pc))
  {
    var t := s.(pc := pc);
    forall x ensures Held(t, x) == Held(s, x) {}
    MoveKeeps(s, t);
    LogKept(s, t);
  }

  lemma ShutdownJustified(s: State)
    requires Justified(s)
    ensures Justified(NextShutdown(s))
  {
    LogKept(s, NextShutdown(s));
  }

  lemma ShutdownKeepsInv(s: State)
    requires Inv(s)
    ensures Inv(NextShutdown(s))
  {
    forall x ensures Held(NextShutdown(s), x) == Held(s, x) {}
    MoveKeeps(s, NextShutdown(s));
    ShutdownJustified(s);
  }

  lemma StopKeepsInv(s: State, task: nat)
    requires Inv(s)
    ensures Inv(NextStop(s, task))
  {
    if task in s.timerData {
      if s.timerData[task] in s.tree {
        StopQueuedKeepsInv(s, s.timerData[task]);
      } else if s.kind == TreeTimer && s.timerData[task] in s.residue {
        StopResidueKeepsInv(s, s.timerData[task]);
      }
    }
  }

  /** Every action, at every point it can happen, keeps the invariant. */
  lemma NextKeepsInv(s: State, a: Action)
    requires Inv(s) && Enabled(s, a)
    ensures Inv(Next(s, a))
  {
    match a
    case StartTask(task, time) => StartKeepsInv(s, task, time);
    case StopTask(task) => StopKeepsInv(s, task);
    case Shutdown => ShutdownKeepsInv(s);
    case Work(now, lead) => WorkKeepsInv(s, now, lead);
  }
}
