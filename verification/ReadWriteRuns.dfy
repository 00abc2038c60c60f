/** What the helper promises over every run of its threads, its timer callbacks and its socket. */
module ReadWriteRuns {
  import opened ReadWriteSpec
  import opened Options
  import opened ReadWriteProof

  /** A run is a sequence of actions, each enabled where the ones before it lead. */
  ghost predicate Legal(acts: seq<Action>)
    decreases |acts|, 0
  {
    acts == [] || (Legal(acts[..|acts| - 1]) && Enabled(Run(acts[..|acts| - 1]), acts[|acts| - 1]))
  }

  ghost function Run(acts: seq<Action>): (u: State)
    requires Legal(acts)
    ensures Inv(u)
    decreases |acts|, 1
  {
    if acts == [] then
      InitInv();
      Init
    else
      hide Inv;
      NextKeepsInv(Run(acts[..|acts| - 1]), acts[|acts| - 1]);
      Next(Run(acts[..|acts| - 1]), acts[|acts| - 1])
  }

  ghost predicate Reachable(u: State) {
    exists acts: seq<Action> :: Legal(acts) && Run(acts) == u
  }

  lemma ReachableInv(u: State)
    requires Reachable(u)
    ensures Inv(u)
  {
    var acts :| Legal(acts) && Run(acts) == u;
    hide Inv;
  }

  lemma ReachableInit()
    ensures Reachable(Init)
  {
    hide Inv;
    assert Legal([]) && Run([]) == Init;
  }

  lemma RunOne(acts: seq<Action>, a: Action)
    requires Legal(acts) && Enabled(Run(acts), a)
    ensures Legal(acts + [a]) && Run(acts + [a]) == Next(Run(acts), a)
  {
    hide Inv, Next, Enabled, Numbered;
    assert (acts + [a])[..|acts|] == acts;
  }

  lemma ReachableNext(u: State, a: Action)
    requires Reachable(u) && Inv(u) && Enabled(u, a)
    ensures Reachable(Next(u, a)) && Inv(Next(u, a))
  {
    hide Inv, Next, Enabled, Numbered, Legal, Run;
    NextKeepsInv(u, a);
    var acts :| Legal(acts) && Run(acts) == u;
    RunOne(acts, a);
  }

  /** At any moment an operation has at most one of its two flags, has been resumed at most once, and was
      resumed by the timer only if it timed out and by I/O only if it finished. */
  lemma ResumedAtMostOnce(u: State, o: nat)
    requires Reachable(u) && o < |u.ops|
    ensures var op := u.ops[o];
            && !(op.timeoutFlag && op.finishFlag)
            && op.resumes <= 1
            && (op.resumes == 1 <==> op.stage == Called || op.expiry == Resumed)
            && (op.stage == Called ==> op.finishFlag)
            && (op.expiry == Resumed ==> op.timeoutFlag)
  {
    ReachableInv(u);
    assert OpOk(u.ops[o]);
  }

  /** No call into the helper is under way and OnTimeout has nothing left to do. */
  ghost predicate Quiet(u: State) {
    && (forall t :: PcOf(u, t) == Idle)
    && (forall o | 0 <= o < |u.ops| :: u.ops[o].expiry != Marked && u.ops[o].expiry != Named)
  }

  /** Once the helper is quiet, every operation whose timer task has been called back has been resumed
      exactly once, and so has every operation that has been decided at all. */
  lemma ResumedExactlyOnce(u: State, o: nat)
    requires Reachable(u) && Quiet(u) && o < |u.ops|
    ensures u.ops[o].resumes == if u.ops[o].timeoutFlag || u.ops[o].finishFlag then 1 else 0
    ensures u.ops[o].alarm == Rung ==> u.ops[o].resumes == 1
    ensures u.ops[o].alarm != Unarmed
    ensures !u.ops[o].stage.Queued? && !u.ops[o].stage.Dropped? ==> u.ops[o].resumes == 1
  {
    ReachableInv(u);
    var op := u.ops[o];
    assert OpOk(op);
    assert op.stage.InHand? ==> o in Hand(PcOf(u, op.stage.thread));
    assert op.alarm == Unarmed ==> PendingArm(PcOf(u, op.owner)) == Some(o);
  }

  /** The result a resumed operation carries: success exactly when it moved bytes, a timeout exactly when
      its timer resumed it; and an operation that timed out has moved nothing. */
  lemma ResumedResult(u: State, o: nat)
    requires Reachable(u) && o < |u.ops| && u.ops[o].resumes == 1
    ensures var op := u.ops[o];
            && (op.result == Success <==> op.moved != [])
            && (op.result == TimedOut <==> op.timeoutFlag)
            && (op.result == TimedOut || op.result == Success || op.result == Fail || op.result == Disconnected)
            && (op.timeoutFlag ==> op.moved == [] && o !in u.performed)
            && |op.moved| <= op.need
  {
    ReachableInv(u);
    assert OpOk(u.ops[o]);
  }

  /** The bytes of the transfers, joined in the order they were performed, are exactly the bytes that have
      gone over the wire; each transfer is one operation's, in arrival order, and no operation has two. */
  lemma WireIsTransfers(u: State)
    requires Reachable(u)
    ensures forall i | 0 <= i < |u.performed| :: u.performed[i] < |u.ops|
    ensures u.wire == Join(u.ops, u.performed)
    ensures Increasing(u.performed)
    ensures forall o | 0 <= o < |u.ops| :: o in u.performed <==> u.ops[o].moved != []
  {
    ReachableInv(u);
  }

  /** I/O is attempted in arrival order: no attempt is for an operation that arrived before one already
      attempted, and an operation still queued arrived no earlier than every attempted one. */
  lemma AttemptedInArrivalOrder(u: State)
    requires Reachable(u)
    ensures forall i, j | 0 <= i < j < |u.attempts| :: u.attempts[i] <= u.attempts[j]
    ensures forall i, o | 0 <= i < |u.attempts| && 0 <= o < |u.ops| && u.ops[o].stage == Queued :: u.attempts[i] <= o
  {
    ReachableInv(u);
  }

  // ----- Channel::Read and Channel::Write

  datatype Outcome = ChannelEnd | Done(result: Result, bytes: seq<Byte>)

  /** What Read and Write return after the await, given the channel's stop flag at that moment. */
  function Returned(op: Op, stopFlag: bool): Outcome {
    if op.result == Success then Done(op.result, op.moved)
    else if stopFlag then ChannelEnd
    else Done(op.result, op.moved)
  }

  /** A stop never hides a transfer, and hides everything else: a call reports success exactly when its bytes moved,
      the end of the channel exactly when the channel was stopped and they did not, and otherwise what kept them from
      moving: the time-out, a failure or a disconnection. */
  lemma StopNeverMasksSuccess(u: State, o: nat, stopFlag: bool)
    requires Reachable(u) && o < |u.ops| && u.ops[o].resumes == 1
    ensures var op, r := u.ops[o], Returned(u.ops[o], stopFlag);
            && (r == Done(Success, op.moved) <==> o in u.performed)
            && (r == ChannelEnd <==> stopFlag && o !in u.performed)
            && (r == Done(TimedOut, []) <==> !stopFlag && op.timeoutFlag)
            && (r == Done(Fail, []) || r == Done(Disconnected, []) <==>
                  !stopFlag && !op.timeoutFlag && o !in u.performed)
  {
    ResumedResult(u, o);
    WireIsTransfers(u);
  }
}
