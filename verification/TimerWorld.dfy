/** A timer's worker among its clients: turns of client calls, one before each of the worker's sections, and the run
    they make together. */
module TimerWorld {
  import opened Options
  import opened TimerSpec
  import opened TimerRuns

  datatype Client = Start(task: nat, now: nat, interval: nat) | Stop(task: nat) | ShutDown | SetLead(lead: nat)

  /** The calls of clients before a section of the worker, and the clock at that section. */
  datatype Turn = Turn(clients: seq<Client>, now: nat)

  /** After the last turn there are no calls any more. */
  function TurnAt(world: seq<Turn>, n: nat): Turn {
    if n < |world| then world[n] else Turn([], 0)
  }

  /** The step a call asks for. */
  function ActionOf(c: Client): (a: Option<Action>)
    ensures a.Some? ==> !a.value.Work?
  {
    match c
    case Start(task, now, interval) => Some(StartTask(task, Wrap(now + interval)))
    case Stop(task) => Some(StopTask(task))
    case ShutDown => Some(Shutdown)
    case SetLead(_) => None
  }

  function LeadAfter(lead: nat, clients: seq<Client>): nat {
    if clients == [] then lead
    else match clients[|clients| - 1]
      case SetLead(x) => x
      case _ => LeadAfter(lead, clients[..|clients| - 1])
  }

  function LeadAt(lead: nat, world: seq<Turn>, n: nat): nat {
    if n == 0 then lead else LeadAfter(LeadAt(lead, world, n - 1), TurnAt(world, n - 1).clients)
  }

  /** A task is started for its interval from now, in 64 bits. */
  lemma StartsFromNow(task: nat, now: nat, interval: nat)
    ensures var a := ActionOf(Start(task, now, interval));
            && a.Some? && a.value.StartTask? && a.value.task == task
            && (now + interval < TWO64 ==> a.value.time == now + interval)
            && a.value.time < TWO64 && (now + interval - a.value.time) % TWO64 == 0
  {
  }

  /** The lead time is the last that was set. */
  lemma {:induction false} LastLeadCounts(lead: nat, before: seq<Client>, x: nat, later: seq<Client>)
    requires forall i | 0 <= i < |later| :: !later[i].SetLead?
    ensures LeadAfter(lead, before + [SetLead(x)] + later) == x
    decreases |later|
  {
    var all := before + [SetLead(x)] + later;
    if later == [] {
      assert all[|all| - 1] == SetLead(x);
    } else {
      assert all[..|all| - 1] == before + [SetLead(x)] + later[..|later| - 1];
      LastLeadCounts(lead, before, x, later[..|later| - 1]);
    }
  }

  /** The calls that are accepted, in order: a start needs a running timer and a task that is not started. */
  ghost function Accepted(s: State, clients: seq<Client>): (acts: seq<Action>)
    requires Inv(s)
    ensures Legal(s, acts)
    decreases |clients|
  {
    hide Inv;
    if clients == [] then []
    else
      var acts := Accepted(s, clients[..|clients| - 1]);
      var a := ActionOf(clients[|clients| - 1]);
      if a.Some? && Enabled(Run(s, acts), a.value) then
        RunStep(s, acts, a.value);
        acts + [a.value]
      else acts
  }

  /** One turn: the accepted calls, and the worker's next section unless it has returned. */
  ghost function TurnActs(s: State, turn: Turn, lead: nat): (acts: seq<Action>)
    requires Inv(s)
    ensures Legal(s, acts)
  {
    hide Inv, Accepted;
    var calls := Accepted(s, turn.clients);
    var work := Work(turn.now, LeadAfter(lead, turn.clients));
    if Run(s, calls).pc == Returned then calls
    else
      RunStep(s, calls, work);
      calls + [work]
  }

  /** What has happened after `n` turns. */
  ghost function Story(s: State, lead: nat, world: seq<Turn>, n: nat): (acts: seq<Action>)
    requires Inv(s)
    ensures Legal(s, acts)
    decreases n
  {
    hide Inv, TurnActs;
    if n == 0 then []
    else
      var acts := Story(s, lead, world, n - 1);
      var turn := TurnActs(Run(s, acts), TurnAt(world, n - 1), LeadAt(lead, world, n - 1));
      RunAppend(s, acts, turn);
      acts + turn
  }

  /** The state after `n` turns. */
  ghost function After(s: State, lead: nat, world: seq<Turn>, n: nat): (t: State)
    requires Inv(s)
    ensures Inv(t)
  {
    Run(s, Story(s, lead, world, n))
  }

  lemma AfterNone(s: State, lead: nat, world: seq<Turn>)
    requires Inv(s)
    ensures After(s, lead, world, 0) == s && LeadAt(lead, world, 0) == lead
  {
    hide Inv;
  }

  lemma AfterTurn(s: State, lead: nat, world: seq<Turn>, n: nat)
    requires Inv(s)
    ensures var u := After(s, lead, world, n);
            After(s, lead, world, n + 1) == Run(u, TurnActs(u, TurnAt(world, n), LeadAt(lead, world, n)))
    ensures LeadAt(lead, world, n + 1) == LeadAfter(LeadAt(lead, world, n), TurnAt(world, n).clients)
  {
    hide Inv, TurnActs, Run, Legal;
    var t := After(s, lead, world, n);
    RunAppend(s, Story(s, lead, world, n), TurnActs(t, TurnAt(world, n), LeadAt(lead, world, n)));
  }

  /** The state after the first `i` calls of a turn. */
  ghost function Called(s: State, clients: seq<Client>, i: nat): (t: State)
    requires Inv(s) && i <= |clients|
    ensures Inv(t)
  {
    Run(s, Accepted(s, clients[..i]))
  }

  lemma CalledNone(s: State, clients: seq<Client>)
    requires Inv(s)
    ensures Called(s, clients, 0) == s
  {
    hide Inv;
    assert clients[..0] == [];
  }

  lemma CalledOne(s: State, clients: seq<Client>, i: nat)
    requires Inv(s) && i < |clients|
    ensures var t, a := Called(s, clients, i), ActionOf(clients[i]);
            Called(s, clients, i + 1) == if a.Some? && Enabled(t, a.value) then Next(t, a.value) else t
  {
    hide Inv;
    var first := clients[..i + 1];
    assert |first| == i + 1 && first[..|first| - 1] == clients[..i] && first[|first| - 1] == clients[i];
    var acts, a := Accepted(s, clients[..i]), ActionOf(clients[i]);
    if a.Some? && Enabled(Run(s, acts), a.value) {
      RunStep(s, acts, a.value);
    }
  }

  lemma LeadOne(lead: nat, clients: seq<Client>, i: nat)
    requires i < |clients|
    ensures LeadAfter(lead, clients[..i + 1])
            == if clients[i].SetLead? then clients[i].lead else LeadAfter(lead, clients[..i])
  {
    assert clients[..i + 1][..i] == clients[..i];
  }

  /** Clients do not make the worker return, and a timer that is shut down stays so. */
  lemma {:induction false} CallsAreNoWork(s: State, clients: seq<Client>, i: nat)
    requires Inv(s) && i <= |clients|
    ensures var t := Called(s, clients, i);
            && (t.pc == Returned <==> s.pc == Returned)
            && (!s.run ==> !t.run && WorkLeft(t) <= WorkLeft(s))
  {
    hide Inv, WorkLeft, Next, Called;
    CalledNone(s, clients);
    if i > 0 {
      CallsAreNoWork(s, clients, i - 1);
      CalledOne(s, clients, i - 1);
      var t, a := Called(s, clients, i - 1), ActionOf(clients[i - 1]);
      if a.Some? && Enabled(t, a.value) { CallIsNoWork(t, a.value); }
    }
  }

  lemma CallIsNoWork(s: State, a: Action)
    requires Inv(s) && Enabled(s, a) && !a.Work?
    ensures Next(s, a).pc == Returned <==> s.pc == Returned
    ensures !s.run ==> !Next(s, a).run && WorkLeft(Next(s, a)) <= WorkLeft(s)
  {
    InvParts(s);
    hide Inv, WorkLeft;
    if !s.run { WorkLeftStep(s, a); }
  }

  lemma NoLead(lead: nat, clients: seq<Client>)
    ensures LeadAfter(lead, clients[..0]) == lead
  {
  }

  lemma WrapBelow(x: int)
    ensures Wrap(x) < TWO64
  {
  }

  lemma NothingStranded(s: State)
    ensures s.pc == Starting ==> Stranded(s) == 0
  {
  }

  /** A turn runs its calls and then one section, which uses up some of the work left after a shutdown. */
  lemma TurnIsCallsAndWork(s: State, turn: Turn, lead: nat)
    requires Inv(s) && s.pc != Returned
    ensures var t, work := Called(s, turn.clients, |turn.clients|), Work(turn.now, LeadAfter(lead, turn.clients));
            && Inv(t) && Enabled(t, work)
            && Run(s, TurnActs(s, turn, lead)) == Next(t, work)
            && (!s.run ==> !Next(t, work).run && WorkLeft(Next(t, work)) < WorkLeft(s))
  {
    hide Inv, WorkLeft, Next, Run, Legal, LeadAfter;
    var t, work := Called(s, turn.clients, |turn.clients|), Work(turn.now, LeadAfter(lead, turn.clients));
    assert turn.clients[..|turn.clients|] == turn.clients;
    CallsAreNoWork(s, turn.clients, |turn.clients|);
    RunStep(s, Accepted(s, turn.clients), work);
    SectionIsWork(t, work);
  }

  lemma SectionIsWork(s: State, work: Action)
    requires Inv(s) && Enabled(s, work) && work.Work?
    ensures !s.run ==> !Next(s, work).run && WorkLeft(Next(s, work)) < WorkLeft(s)
  {
    InvParts(s);
    hide Inv, WorkLeft, Next;
    if !s.run { WorkLeftStep(s, work); }
  }
}
