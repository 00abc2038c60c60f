/** The read/write helper of a channel, as a state machine over the steps its threads can interleave at:
    each mutex section, each access to an atomic flag, each call into the timer and each coroutine resume. */
module ReadWriteSpec {
  import opened Options

  type Byte = bv8

  /** SChannelResult::EState as far as the helper sets it. */
  datatype Result = Pending | Success | Fail | Disconnected | TimedOut

  /** Where an operation is: on a queue, with a thread that took it off, dropped because it had timed out,
      or resumed by its I/O callback. */
  datatype Stage = Queued | InHand(thread: nat) | Dropped | Called

  /** Its timer task: not yet started, running, or called back. */
  datatype Alarm = Unarmed | Armed | Rung

  /** How far OnTimeout has got after it marked the operation. */
  datatype Expiry = NotExpired | Marked | Named | Resumed

  /** One read or write.  An operation's number is its place in the order of arrival. */
  datatype Op = Op(
    need: nat,
    owner: nat,
    timeoutFlag: bool,
    finishFlag: bool,
    result: Result,
    moved: seq<Byte>,
    stage: Stage,
    alarm: Alarm,
    expiry: Expiry,
    resumes: nat)

  /** What a thread does after DoOperate or EndAllOperate: go on to start its timer task, or return. */
  datatype Cont = Arm(op: nat) | Back

  datatype Pc =
    | Idle
    | Checking(op: nat)
    | Arming(op: nat)
    | Entering(cont: Cont)
    | Locking(cont: Cont)
    | Looping(cont: Cont, fin: seq<nat>)
    | Publishing(cont: Cont, fin: seq<nat>)
    | Flagging(cont: Cont, fin: seq<nat>, ready: bool)
    | Calling(cont: Cont, fin: seq<nat>)
    | Resuming(cont: Cont, fin: seq<nat>)
    | Ending(cont: Cont)
    | EndLoop(cont: Cont, rest: seq<nat>)
    | EndPublishing(cont: Cont, rest: seq<nat>)
    | EndStopping(cont: Cont, rest: seq<nat>)
    | EndResuming(cont: Cont, rest: seq<nat>)

  datatype State = State(
    run: bool,
    operateable: bool,
    holder: Option<nat>,
    ready: seq<nat>,
    queue: seq<nat>,
    ops: seq<Op>,
    threads: map<nat, Pc>,
    wire: seq<Byte>,
    performed: seq<nat>,
    attempts: seq<nat>)

  /** The outcome of one read or write call: negative, zero, or that many bytes. */
  datatype Io = Error | WouldBlock | Bytes(bytes: seq<Byte>)

  datatype Action =
    | Start
    | Submit(thread: nat, need: nat)
    | OnOperate(thread: nat)
    | Stop(thread: nat)
    | Step(thread: nat, io: Io)
    | Ring(op: nat)
    | ExpiryName(op: nat)
    | ExpiryResume(op: nat)

  const Init: State := State(false, false, None, [], [], [], map[], [], [], [])

  function PcOf(s: State, t: nat): Pc {
    if t in s.threads then s.threads[t] else Idle
  }

  function At(s: State, t: nat, pc: Pc): State {
    s.(threads := s.threads[t := pc])
  }

  function After(cont: Cont): Pc {
    match cont
    case Arm(o) => Arming(o)
    case Back => Idle
  }

  predicate Locked(pc: Pc) {
    pc.Looping? || pc.Publishing?
  }

  predicate IoAllowed(s: State, o: nat, io: Io) {
    o < |s.ops| && (io.Bytes? ==> 0 < |io.bytes| <= s.ops[o].need)
  }

  predicate Enabled(s: State, a: Action) {
    match a
    case Start => true
    case Submit(t, need) => PcOf(s, t) == Idle
    case OnOperate(t) => PcOf(s, t) == Idle
    case Stop(t) => PcOf(s, t) == Idle
    case Step(t, io) =>
      && PcOf(s, t) != Idle
      && (PcOf(s, t).Locking? || PcOf(s, t).Ending? ==> s.holder == None)
      && (PcOf(s, t).Looping? && s.queue != [] ==> IoAllowed(s, s.queue[0], io))
    case Ring(o) => o < |s.ops| && s.ops[o].alarm == Armed
    case ExpiryName(o) => o < |s.ops| && s.ops[o].expiry == Marked
    case ExpiryResume(o) => o < |s.ops| && s.ops[o].expiry == Named
  }

  /** The operations a thread has taken off the queues and not yet dealt with, in order. */
  function Hand(pc: Pc): seq<nat> {
    match pc
    case Looping(_, fin) => fin
    case Publishing(_, fin) => fin
    case Flagging(_, fin, _) => fin
    case Calling(_, fin) => fin
    case Resuming(_, fin) => fin
    case EndLoop(_, rest) => rest
    case EndPublishing(_, rest) => rest
    case EndStopping(_, rest) => rest
    case EndResuming(_, rest) => rest
    case _ => []
  }

  /** The numbers in a thread's hand, and the queued ones, are numbers of operations. */
  ghost predicate Numbered(s: State) {
    && (forall i | 0 <= i < |s.queue| :: s.queue[i] < |s.ops|)
    && (forall t, i | 0 <= i < |Hand(PcOf(s, t))| :: Hand(PcOf(s, t))[i] < |s.ops|)
    && (forall t :: PcOf(s, t).Arming? ==> PcOf(s, t).op < |s.ops|)
    && (forall t :: NeedsHand(PcOf(s, t)) ==> Hand(PcOf(s, t)) != [])
  }

  predicate NeedsHand(pc: Pc) {
    pc.Publishing? || pc.Resuming? || pc.EndPublishing? || pc.EndStopping? || pc.EndResuming?
  }

  function Next(s: State, a: Action): State
    requires Numbered(s) && Enabled(s, a)
  {
    match a
    case Start => s.(run := true)
    case Submit(t, need) => NextSubmit(s, t, need)
    case OnOperate(t) => At(s, t, Entering(Back)).(operateable := true)
    case Stop(t) => At(s, t, Ending(Back)).(run := false)
    case Step(t, io) => NextStep(s, t, io)
    case Ring(o) => NextRing(s, o)
    case ExpiryName(o) => s.(ops := s.ops[o := s.ops[o].(result := TimedOut, expiry := Named)])
    case ExpiryResume(o) => s.(ops := s.ops[o := s.ops[o].(resumes := s.ops[o].resumes + 1, expiry := Resumed)])
  }

  /** AddOperateData's first section; the operation is created on the way. */
  function NextSubmit(s: State, t: nat, need: nat): State {
    At(s, t, Checking(|s.ops|)).(
      ready := s.ready + [|s.ops|],
      ops := s.ops + [Op(need, t, false, false, Pending, [], Queued, Unarmed, NotExpired, 0)])
  }

  /** OnTimeout's locked section. */
  function NextRing(s: State, o: nat): State
    requires o < |s.ops|
  {
    var op := s.ops[o];
    s.(ops := s.ops[o := if op.finishFlag then op.(alarm := Rung)
                         else op.(alarm := Rung, timeoutFlag := true, expiry := Marked)])
  }

  function NextStep(s: State, t: nat, io: Io): State
    requires Numbered(s) && Enabled(s, Step(t, io))
  {
    var pc := PcOf(s, t);
    var hand := Hand(pc);
    match pc
    case Checking(o) => At(s, t, if s.operateable then Entering(Arm(o)) else Arming(o))
    case Arming(o) => At(s, t, Idle).(ops := s.ops[o := s.ops[o].(alarm := Armed)])
    case Entering(cont) => At(s, t, Locking(cont)).(operateable := false)
    case Locking(cont) =>
      At(s, t, Looping(cont, [])).(holder := Some(t), queue := s.queue + s.ready, ready := [])
    case Looping(cont, _) => NextIo(s, t, cont, hand, io)
    case Publishing(cont, _) => NextPublish(s, t, cont, hand)
    case Flagging(cont, _, ready) => At(s, t, Calling(cont, hand)).(operateable := s.operateable || ready)
    case Calling(cont, _) =>
      At(s, t, if hand != [] then Resuming(cont, hand) else if s.run then After(cont) else Ending(cont))
    case Resuming(cont, _) => ResumeIo(s, t, hand[0], Calling(cont, hand[1..]))
    case Ending(cont) => TakeAll(s, t, cont)
    case EndLoop(cont, _) => NextEnd(s, t, cont, hand)
    case EndPublishing(cont, _) =>
      At(s, t, EndStopping(cont, hand)).(ops := s.ops[hand[0] := s.ops[hand[0]].(result := Disconnected)])
    case EndStopping(cont, _) => At(s, t, EndResuming(cont, hand))
    case EndResuming(cont, _) => ResumeIo(s, t, hand[0], EndLoop(cont, hand[1..]))
  }

  /** One turn of EndAllOperate's loop, up to the end of the operation's own mutex section. */
  function NextEnd(s: State, t: nat, cont: Cont, rest: seq<nat>): State
    requires rest != [] ==> rest[0] < |s.ops|
  {
    if rest == [] then At(s, t, After(cont))
    else if s.ops[rest[0]].timeoutFlag then DropTimedOut(s, t, rest[0], EndLoop(cont, rest[1..]))
    else At(s, t, EndPublishing(cont, rest)).(ops := s.ops[rest[0] := s.ops[rest[0]].(finishFlag := true)])
  }

  function DropTimedOut(s: State, t: nat, o: nat, pc: Pc): State
    requires o < |s.ops|
  {
    At(s, t, pc).(ops := s.ops[o := s.ops[o].(stage := Dropped)])
  }

  /** The callback's resume of the coroutine. */
  function ResumeIo(s: State, t: nat, o: nat, pc: Pc): State
    requires o < |s.ops|
  {
    At(s, t, pc).(ops := s.ops[o := s.ops[o].(stage := Called, resumes := s.ops[o].resumes + 1)])
  }

  /** One turn of DoOperateImp's loop, up to the end of the operation's own mutex section. */
  function NextIo(s: State, t: nat, cont: Cont, fin: seq<nat>, io: Io): State
    requires Numbered(s) && (s.queue != [] ==> IoAllowed(s, s.queue[0], io))
  {
    if s.queue == [] then At(s, t, Flagging(cont, fin, true)).(holder := None)
    else
      var o := s.queue[0];
      if s.ops[o].timeoutFlag then
        DropTimedOut(s, t, o, Looping(cont, fin)).(queue := s.queue[1..])
      else if io.WouldBlock? then
        At(s, t, Flagging(cont, fin, false)).(holder := None, attempts := s.attempts + [o])
      else
        Transfer(s, t, cont, fin, if io.Bytes? then io.bytes else [])
  }

  /** A call that did something: the operation leaves the queue, finished, with its bytes (none on an error). */
  function Transfer(s: State, t: nat, cont: Cont, fin: seq<nat>, bytes: seq<Byte>): State
    requires s.queue != [] && s.queue[0] < |s.ops|
  {
    var o := s.queue[0];
    At(s, t, Publishing(cont, fin + [o])).(
      queue := s.queue[1..],
      ops := s.ops[o := s.ops[o].(finishFlag := true, stage := InHand(t), moved := bytes)],
      wire := s.wire + bytes,
      performed := if bytes != [] then s.performed + [o] else s.performed,
      attempts := s.attempts + [o])
  }

  /** The rest of the turn: the result is written after the operation's mutex has been released. */
  function NextPublish(s: State, t: nat, cont: Cont, fin: seq<nat>): State
    requires fin != [] && fin[|fin| - 1] < |s.ops|
  {
    var o := fin[|fin| - 1];
    if s.ops[o].moved == [] then
      At(s, t, Flagging(cont, fin, false)).(holder := None, run := false, ops := s.ops[o := s.ops[o].(result := Fail)])
    else if |s.ops[o].moved| < s.ops[o].need then
      At(s, t, Flagging(cont, fin, false)).(holder := None, ops := s.ops[o := s.ops[o].(result := Success)])
    else
      At(s, t, Looping(cont, fin)).(ops := s.ops[o := s.ops[o].(result := Success)])
  }

  /** EndAllOperate's first section: both queues become the thread's own list. */
  function TakeAll(s: State, t: nat, cont: Cont): State {
    var all := s.queue + s.ready;
    At(s, t, EndLoop(cont, all)).(
      queue := [], ready := [],
      ops := PutInHand(s.ops, all, t))
  }

  function PutInHand(ops: seq<Op>, all: seq<nat>, t: nat): seq<Op> {
    seq(|ops|, i requires 0 <= i < |ops| => if i in all then ops[i].(stage := InHand(t)) else ops[i])
  }

  // ----- the invariant

  predicate IoResult(op: Op) {
    (op.result.Success? || op.result.Fail? || op.result.Disconnected?) && (op.result.Success? <==> op.moved != [])
  }

  /** One operation on its own: the two flags exclude each other and account for every resume. */
  predicate OpOk(op: Op) {
    && !(op.timeoutFlag && op.finishFlag)
    && (op.timeoutFlag <==> op.expiry != NotExpired)
    && (op.timeoutFlag ==> op.alarm == Rung)
    && (op.alarm == Rung ==> op.timeoutFlag || op.finishFlag)
    && (op.stage.Queued? ==> !op.finishFlag)
    && (op.stage.Dropped? ==> op.timeoutFlag)
    && (op.stage.Called? ==> op.finishFlag && IoResult(op))
    && op.resumes == (if op.stage.Called? then 1 else 0) + (if op.expiry == Resumed then 1 else 0)
    && (op.moved != [] ==> op.finishFlag)
    && |op.moved| <= op.need
    && (op.expiry == Named || op.expiry == Resumed ==> op.result == TimedOut)
  }

  ghost predicate OpsOk(s: State) {
    forall o | 0 <= o < |s.ops| :: OpOk(s.ops[o])
  }

  /** The first queued number; every later operation is queued, in order, every earlier one is not. */
  function Front(s: State): int {
    |s.ops| - |s.queue| - |s.ready|
  }

  ghost predicate QueueOk(s: State) {
    && Front(s) >= 0
    && (forall i | 0 <= i < |s.queue| :: s.queue[i] == Front(s) + i)
    && (forall i | 0 <= i < |s.ready| :: s.ready[i] == Front(s) + |s.queue| + i)
    && (forall o | 0 <= o < |s.ops| :: s.ops[o].stage.Queued? <==> o >= Front(s))
  }

  /** Whether the thread has already set the finish flag of the i-th operation in its hand. */
  predicate Decided(pc: Pc, i: nat) {
    match pc
    case EndLoop(_, _) => false
    case EndPublishing(_, _) => i == 0
    case EndStopping(_, _) => i == 0
    case EndResuming(_, _) => i == 0
    case _ => true
  }

  /** Whether it has also written the result. */
  predicate Settled(pc: Pc, i: nat) {
    match pc
    case Publishing(_, fin) => i + 1 < |fin|
    case EndLoop(_, _) => false
    case EndPublishing(_, _) => false
    case EndStopping(_, _) => i == 0
    case EndResuming(_, _) => i == 0
    case _ => true
  }

  /** Whether no I/O has been done for it: EndAllOperate takes only operations that were still queued. */
  predicate Untouched(pc: Pc, i: nat) {
    match pc
    case EndLoop(_, _) => true
    case EndPublishing(_, _) => true
    case EndStopping(_, _) => i > 0
    case EndResuming(_, _) => i > 0
    case _ => false
  }

  ghost predicate Increasing(q: seq<nat>) {
    forall i, j | 0 <= i < j < |q| :: q[i] < q[j]
  }

  ghost predicate Holds(ops: seq<Op>, t: nat, pc: Pc, i: nat)
    requires i < |Hand(pc)|
  {
    && Hand(pc)[i] < |ops|
    && ops[Hand(pc)[i]].stage == InHand(t)
    && ops[Hand(pc)[i]].finishFlag == Decided(pc, i)
    && (Settled(pc, i) ==> IoResult(ops[Hand(pc)[i]]))
    && (Untouched(pc, i) ==> ops[Hand(pc)[i]].moved == [])
  }

  ghost predicate HandOk(ops: seq<Op>, t: nat, pc: Pc) {
    && Increasing(Hand(pc))
    && (NeedsHand(pc) ==> Hand(pc) != [])
    && forall i | 0 <= i < |Hand(pc)| :: Holds(ops, t, pc, i)
  }

  ghost predicate HandsOk(s: State) {
    forall t :: HandOk(s.ops, t, PcOf(s, t))
  }

  /** An operation in a thread's hand is on that thread's list. */
  ghost predicate Kept(s: State) {
    forall o: nat | o < |s.ops| && s.ops[o].stage.InHand? :: o in Hand(PcOf(s, s.ops[o].stage.thread))
  }

  function ContArm(cont: Cont): Option<nat> {
    match cont
    case Arm(o) => Some(o)
    case Back => None
  }

  /** The operation whose timer task the thread has still to start. */
  function PendingArm(pc: Pc): Option<nat> {
    match pc
    case Idle => None
    case Checking(o) => Some(o)
    case Arming(o) => Some(o)
    case Entering(c) => ContArm(c)
    case Locking(c) => ContArm(c)
    case Looping(c, _) => ContArm(c)
    case Publishing(c, _) => ContArm(c)
    case Flagging(c, _, _) => ContArm(c)
    case Calling(c, _) => ContArm(c)
    case Resuming(c, _) => ContArm(c)
    case Ending(c) => ContArm(c)
    case EndLoop(c, _) => ContArm(c)
    case EndPublishing(c, _) => ContArm(c)
    case EndStopping(c, _) => ContArm(c)
    case EndResuming(c, _) => ContArm(c)
  }

  ghost predicate ArmsOk(s: State) {
    && (forall t :: PendingArm(PcOf(s, t)).Some? ==>
          PendingArm(PcOf(s, t)).value < |s.ops|
          && s.ops[PendingArm(PcOf(s, t)).value].alarm == Unarmed
          && s.ops[PendingArm(PcOf(s, t)).value].owner == t)
    && (forall o: nat | o < |s.ops| && s.ops[o].alarm == Unarmed :: PendingArm(PcOf(s, s.ops[o].owner)) == Some(o))
  }

  ghost predicate LockOk(s: State) {
    forall t: nat :: Locked(PcOf(s, t)) <==> s.holder == Some(t)
  }

  /** The bytes of these operations, joined in this order. */
  function Join(ops: seq<Op>, p: seq<nat>): seq<Byte>
    requires forall i | 0 <= i < |p| :: p[i] < |ops|
  {
    if p == [] then [] else Join(ops, p[..|p| - 1]) + ops[p[|p| - 1]].moved
  }

  ghost predicate WireOk(s: State) {
    && (forall i | 0 <= i < |s.performed| :: s.performed[i] < Front(s) <= |s.ops|)
    && Increasing(s.performed)
    && (forall o | 0 <= o < |s.ops| :: s.ops[o].moved != [] <==> o in s.performed)
    && s.wire == Join(s.ops, s.performed)
  }

  ghost predicate AttemptsOk(s: State) {
    && (forall i, j | 0 <= i < j < |s.attempts| :: s.attempts[i] <= s.attempts[j])
    && (forall i | 0 <= i < |s.attempts| :: s.attempts[i] <= Front(s))
  }

  ghost predicate Inv(s: State): (b: bool)
    ensures b ==> Numbered(s)
  {
    && OpsOk(s)
    && QueueOk(s)
    && HandsOk(s)
    && Kept(s)
    && ArmsOk(s)
    && LockOk(s)
    && WireOk(s)
    && AttemptsOk(s)
    && (NumberedFollows(s); true)
  }

  lemma NumberedFollows(s: State)
    ensures QueueOk(s) && HandsOk(s) && ArmsOk(s) ==> Numbered(s)
  {
    if QueueOk(s) && HandsOk(s) && ArmsOk(s) {
      forall t, i | 0 <= i < |Hand(PcOf(s, t))| ensures Hand(PcOf(s, t))[i] < |s.ops| {
        assert Holds(s.ops, t, PcOf(s, t), i);
      }
      forall t ensures NeedsHand(PcOf(s, t)) ==> Hand(PcOf(s, t)) != [] {
        assert HandOk(s.ops, t, PcOf(s, t));
      }
      forall t ensures PcOf(s, t).Arming? ==> PcOf(s, t).op < |s.ops| {
        if PcOf(s, t).Arming? { assert PendingArm(PcOf(s, t)).Some?; }
      }
    }
  }

  lemma InitInv()
    ensures Inv(Init)
  {
  }
}
