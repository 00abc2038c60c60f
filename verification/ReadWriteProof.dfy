/** Every step of the read/write helper, by any thread at any moment, keeps its invariant. */
module ReadWriteProof {
  import opened ReadWriteSpec
  import opened Options

  // ----- steps that touch no operation

  /** Position `q` asks no more of its i-th operation than position `p` of its j-th. */
  predicate AsksLess(p: Pc, j: nat, q: Pc, i: nat) {
    Decided(q, i) == Decided(p, j) && (Settled(q, i) ==> Settled(p, j)) && (Untouched(q, i) ==> Untouched(p, j))
  }

  /** The new position of a thread holds the same operations and asks no more of them. */
  ghost predicate SameHand(p: Pc, q: Pc) {
    && Hand(q) == Hand(p)
    && PendingArm(q) == PendingArm(p)
    && (NeedsHand(q) ==> Hand(p) != [])
    && (forall i: nat | i < |Hand(p)| :: AsksLess(p, i, q, i))
  }

  ghost predicate OnlyThread(s: State, u: State, t: nat) {
    forall x :: x != t ==> PcOf(u, x) == PcOf(s, x)
  }

  lemma SameHandOk(ops: seq<Op>, t: nat, p: Pc, q: Pc)
    requires HandOk(ops, t, p) && SameHand(p, q)
    ensures HandOk(ops, t, q)
  {
    forall i | 0 <= i < |Hand(q)| ensures Holds(ops, t, q, i) {
      assert Holds(ops, t, p, i);
      assert AsksLess(p, i, q, i);
    }
  }

  lemma Parts(s: State)
    requires Inv(s)
    ensures OpsOk(s) && QueueOk(s) && HandsOk(s) && Kept(s) && ArmsOk(s) && LockOk(s) && WireOk(s) && AttemptsOk(s)
  {
  }

  lemma InvFrom(u: State)
    requires OpsOk(u) && QueueOk(u) && HandsOk(u) && Kept(u) && ArmsOk(u) && LockOk(u) && WireOk(u) && AttemptsOk(u)
    ensures Inv(u)
  {
    NumberedFollows(u);
  }

  lemma OpIsOk(s: State, o: nat)
    requires OpsOk(s) && o < |s.ops|
    ensures OpOk(s.ops[o])
  {
  }

  lemma HandIsOk(s: State, t: nat)
    requires HandsOk(s)
    ensures HandOk(s.ops, t, PcOf(s, t))
  {
  }

  lemma HeldOne(s: State, t: nat, k: nat)
    requires HandsOk(s) && k < |Hand(PcOf(s, t))|
    ensures Holds(s.ops, t, PcOf(s, t), k)
  {
    assert HandOk(s.ops, t, PcOf(s, t));
  }

  lemma FrontFirst(s: State)
    requires QueueOk(s) && s.queue != []
    ensures s.queue[0] == Front(s) && 0 <= Front(s) < |s.ops| && s.ops[Front(s)].stage.Queued?
  {
    assert s.queue[0] == Front(s) + 0;
  }

  lemma SameQueues(s: State, u: State)
    requires QueueOk(s) && u.ops == s.ops
    requires (u.queue == s.queue && u.ready == s.ready) || (u.queue == s.queue + s.ready && u.ready == [])
    ensures QueueOk(u) && Front(u) == Front(s)
  {
  }

  lemma MovedHands(s: State, u: State, t: nat)
    requires HandsOk(s) && Kept(s) && u.ops == s.ops && OnlyThread(s, u, t) && SameHand(PcOf(s, t), PcOf(u, t))
    ensures HandsOk(u) && Kept(u)
  {
    forall x ensures HandOk(u.ops, x, PcOf(u, x)) {
      assert HandOk(s.ops, x, PcOf(s, x));
      if x == t { SameHandOk(s.ops, t, PcOf(s, t), PcOf(u, t)); }
    }
    forall o: nat | o < |u.ops| && u.ops[o].stage.InHand? ensures o in Hand(PcOf(u, u.ops[o].stage.thread)) {
      assert o in Hand(PcOf(s, s.ops[o].stage.thread));
    }
  }

  lemma MovedArms(s: State, u: State, t: nat)
    requires ArmsOk(s) && u.ops == s.ops && OnlyThread(s, u, t) && PendingArm(PcOf(u, t)) == PendingArm(PcOf(s, t))
    ensures ArmsOk(u)
  {
    forall x ensures PendingArm(PcOf(u, x)) == PendingArm(PcOf(s, x)) {}
  }

  lemma SameRest(s: State, u: State)
    requires OpsOk(s) && WireOk(s) && AttemptsOk(s)
    requires u.ops == s.ops && u.wire == s.wire && u.performed == s.performed && u.attempts == s.attempts
    requires Front(u) == Front(s)
    ensures OpsOk(u) && WireOk(u) && AttemptsOk(u)
  {
  }

  lemma PcStep(s: State, u: State, t: nat)
    requires Inv(s)
    requires u.ops == s.ops && u.wire == s.wire && u.performed == s.performed && u.attempts == s.attempts
    requires Front(u) == Front(s) && QueueOk(u)
    requires OnlyThread(s, u, t) && SameHand(PcOf(s, t), PcOf(u, t))
    requires LockOk(u)
    ensures Inv(u)
  {
    Parts(s);
    hide Inv, OpsOk, QueueOk, HandsOk, Kept, ArmsOk, LockOk, WireOk, AttemptsOk;
    MovedHands(s, u, t);
    MovedArms(s, u, t);
    SameRest(s, u);
    InvFrom(u);
  }

  /** One operation changes, and at most one thread moves. */
  ghost predicate OnlyOp(s: State, u: State, o: nat) {
    && |u.ops| == |s.ops|
    && o < |s.ops|
    && u.ops == s.ops[o := u.ops[o]]
    && u.ops[o].owner == s.ops[o].owner
  }

  /** A change to an operation that its holder and its place do not see. */
  predicate Unseen(a: Op, b: Op) {
    && b.stage == a.stage && b.finishFlag == a.finishFlag && b.moved == a.moved && b.need == a.need
    && (a.finishFlag ==> b.result == a.result)
  }

  lemma UnseenHand(s: State, u: State, o: nat, x: nat)
    requires HandOk(s.ops, x, PcOf(s, x)) && OnlyOp(s, u, o) && Unseen(s.ops[o], u.ops[o])
    requires forall p | 0 <= p < |s.ops| :: OpOk(s.ops[p])
    ensures HandOk(u.ops, x, PcOf(s, x))
  {
    forall i | 0 <= i < |Hand(PcOf(s, x))| ensures Holds(u.ops, x, PcOf(s, x), i) {
      assert Holds(s.ops, x, PcOf(s, x), i);
    }
  }

  lemma {:induction false} JoinSame(a: seq<Op>, b: seq<Op>, p: seq<nat>)
    requires |a| <= |b| && forall i | 0 <= i < |p| :: p[i] < |a| && b[p[i]].moved == a[p[i]].moved
    ensures Join(a, p) == Join(b, p)
  {
    if p != [] {
      JoinSame(a, b, p[..|p| - 1]);
    }
  }

  lemma WireSame(s: State, u: State)
    requires WireOk(s) && |s.ops| <= |u.ops| && Front(u) >= Front(s)
    requires u.wire == s.wire && u.performed == s.performed
    requires forall o | 0 <= o < |s.ops| :: u.ops[o].moved == s.ops[o].moved
    requires forall o | |s.ops| <= o < |u.ops| :: u.ops[o].moved == []
    requires Front(u) <= |u.ops|
    ensures WireOk(u)
  {
    JoinSame(s.ops, u.ops, s.performed);
    forall o | 0 <= o < |u.ops| ensures u.ops[o].moved != [] <==> o in u.performed {
      assert o in s.performed ==> o < |s.ops|;
    }
  }

  lemma OnlyOpLength(s: State, u: State, o: nat)
    requires OnlyOp(s, u, o)
    ensures o < |s.ops| == |u.ops|
  {
  }

  /** Nobody else sees an operation that is not in another thread's hand. */
  lemma OtherHand(s: State, u: State, o: nat, x: nat)
    requires HandOk(s.ops, x, PcOf(s, x)) && OnlyOp(s, u, o) && s.ops[o].stage != InHand(x)
    ensures HandOk(u.ops, x, PcOf(s, x))
  {
    forall i | 0 <= i < |Hand(PcOf(s, x))| ensures Holds(u.ops, x, PcOf(s, x), i) {
      assert Holds(s.ops, x, PcOf(s, x), i);
    }
  }

  lemma ArmsSame(s: State, u: State)
    requires ArmsOk(s) && |u.ops| == |s.ops|
    requires forall x :: PendingArm(PcOf(u, x)) == PendingArm(PcOf(s, x))
    requires forall o | 0 <= o < |s.ops| ::
               u.ops[o].owner == s.ops[o].owner && (u.ops[o].alarm == Unarmed <==> s.ops[o].alarm == Unarmed)
    ensures ArmsOk(u)
  {
  }

  lemma UnseenHands(s: State, u: State, t: nat, o: nat)
    requires OpsOk(s) && HandsOk(s) && Kept(s)
    requires OnlyOp(s, u, o) && Unseen(s.ops[o], u.ops[o])
    requires OnlyThread(s, u, t) && Hand(PcOf(u, t)) == Hand(PcOf(s, t))
    requires PcOf(u, t) == PcOf(s, t) || (Hand(PcOf(s, t)) == [] && !NeedsHand(PcOf(u, t)))
    ensures HandsOk(u) && Kept(u)
  {
    forall x ensures HandOk(u.ops, x, PcOf(u, x)) {
      assert HandOk(s.ops, x, PcOf(s, x));
      UnseenHand(s, u, o, x);
    }
    forall p: nat | p < |u.ops| && u.ops[p].stage.InHand? ensures p in Hand(PcOf(u, u.ops[p].stage.thread)) {
      assert p in Hand(PcOf(s, s.ops[p].stage.thread));
    }
  }

  lemma UnseenRest(s: State, u: State, o: nat)
    requires OpsOk(s) && QueueOk(s) && WireOk(s) && AttemptsOk(s)
    requires OnlyOp(s, u, o) && Unseen(s.ops[o], u.ops[o]) && OpOk(u.ops[o])
    requires u.(ops := s.ops, threads := s.threads) == s
    ensures OpsOk(u) && QueueOk(u) && WireOk(u) && AttemptsOk(u)
  {
    assert Front(u) == Front(s);
    WireSame(s, u);
  }

  lemma SameLock(s: State, u: State, t: nat)
    requires LockOk(s) && u.holder == s.holder && OnlyThread(s, u, t)
    requires Locked(PcOf(u, t)) == Locked(PcOf(s, t))
    ensures LockOk(u)
  {
    forall x ensures Locked(PcOf(u, x)) <==> Locked(PcOf(s, x)) {}
  }

  /** A step that changes one operation in a way its holder does not see. */
  lemma UnseenStep(s: State, u: State, t: nat, o: nat)
    requires Inv(s) && OnlyOp(s, u, o) && Unseen(s.ops[o], u.ops[o]) && OpOk(u.ops[o])
    requires u.(ops := s.ops, threads := s.threads) == s
    requires OnlyThread(s, u, t) && Hand(PcOf(u, t)) == Hand(PcOf(s, t))
    requires PcOf(u, t) == PcOf(s, t) || (Hand(PcOf(s, t)) == [] && !NeedsHand(PcOf(u, t)))
    requires Locked(PcOf(u, t)) == Locked(PcOf(s, t))
    requires ArmsOk(u)
    ensures Inv(u)
  {
    Parts(s);
    hide Inv, OpsOk, QueueOk, HandsOk, Kept, ArmsOk, LockOk, WireOk, AttemptsOk, OpOk, Unseen, NeedsHand;
    UnseenHands(s, u, t, o);
    UnseenRest(s, u, o);
    SameLock(s, u, t);
    InvFrom(u);
  }

  lemma OthersHold(s: State, u: State, t: nat, o: nat)
    requires HandsOk(s) && OnlyOp(s, u, o) && OnlyThread(s, u, t)
    requires forall x | x != t :: s.ops[o].stage != InHand(x)
    requires HandOk(u.ops, t, PcOf(u, t))
    ensures HandsOk(u)
  {
    forall x ensures HandOk(u.ops, x, PcOf(u, x)) {
      assert HandOk(s.ops, x, PcOf(s, x));
      if x != t { OtherHand(s, u, o, x); }
    }
  }

  lemma OthersKept(s: State, u: State, t: nat, o: nat)
    requires Kept(s) && OnlyOp(s, u, o) && OnlyThread(s, u, t)
    requires u.ops[o].stage.InHand? ==> u.ops[o].stage.thread == t && o in Hand(PcOf(u, t))
    requires forall p: nat | p != o && p in Hand(PcOf(s, t)) :: p in Hand(PcOf(u, t))
    ensures Kept(u)
  {
    forall p: nat | p < |u.ops| && u.ops[p].stage.InHand? ensures p in Hand(PcOf(u, u.ops[p].stage.thread)) {
      if p != o { assert p in Hand(PcOf(s, s.ops[p].stage.thread)); }
    }
  }

  /** A step in which thread `t` deals with an operation that is its own, or that it takes off the queue. */
  lemma HandStep(s: State, u: State, t: nat, o: nat)
    requires Inv(s) && OnlyOp(s, u, o) && OpOk(u.ops[o])
    requires forall x | x != t :: s.ops[o].stage != InHand(x)
    requires OnlyThread(s, u, t)
    requires u.ops[o].stage.InHand? ==> u.ops[o].stage.thread == t && o in Hand(PcOf(u, t))
    requires HandOk(u.ops, t, PcOf(u, t))
    requires forall p: nat | p != o && p in Hand(PcOf(s, t)) :: p in Hand(PcOf(u, t))
    requires u.ops[o].alarm == s.ops[o].alarm && PendingArm(PcOf(u, t)) == PendingArm(PcOf(s, t))
    requires QueueOk(u) && LockOk(u) && WireOk(u) && AttemptsOk(u)
    ensures Inv(u)
  {
    Parts(s);
    hide Inv, OpsOk, QueueOk, HandsOk, Kept, ArmsOk, LockOk, WireOk, AttemptsOk, HandOk, OpOk;
    OthersHold(s, u, t, o);
    OthersKept(s, u, t, o);
    OpsFrom(s, u, o);
    ArmsKept(s, u, t, o);
    InvFrom(u);
  }

  lemma OpsFrom(s: State, u: State, o: nat)
    requires OpsOk(s) && OnlyOp(s, u, o) && OpOk(u.ops[o])
    ensures OpsOk(u)
  {
    hide OpOk;
  }

  lemma ArmsKept(s: State, u: State, t: nat, o: nat)
    requires ArmsOk(s) && OnlyOp(s, u, o) && OnlyThread(s, u, t)
    requires u.ops[o].alarm == s.ops[o].alarm && PendingArm(PcOf(u, t)) == PendingArm(PcOf(s, t))
    ensures ArmsOk(u)
  {
    forall x ensures PendingArm(PcOf(u, x)) == PendingArm(PcOf(s, x)) {}
    ArmsSame(s, u);
  }

  // ----- the actions

  lemma SubmitHands(s: State, t: nat, need: nat)
    requires HandsOk(s) && Kept(s) && PcOf(s, t) == Idle
    ensures HandsOk(NextSubmit(s, t, need)) && Kept(NextSubmit(s, t, need))
  {
    var u := NextSubmit(s, t, need);
    forall x ensures HandOk(u.ops, x, PcOf(u, x)) {
      assert HandOk(s.ops, x, PcOf(s, x));
      forall i | 0 <= i < |Hand(PcOf(u, x))| ensures Holds(u.ops, x, PcOf(u, x), i) {
        assert Holds(s.ops, x, PcOf(s, x), i);
      }
    }
    forall p: nat | p < |u.ops| && u.ops[p].stage.InHand? ensures p in Hand(PcOf(u, u.ops[p].stage.thread)) {
      assert p in Hand(PcOf(s, s.ops[p].stage.thread));
    }
  }

  lemma SubmitArms(s: State, t: nat, need: nat)
    requires ArmsOk(s) && PcOf(s, t) == Idle
    ensures ArmsOk(NextSubmit(s, t, need))
  {
    var u := NextSubmit(s, t, need);
    assert PendingArm(PcOf(u, t)) == Some(|s.ops|);
    forall x | x != t ensures PcOf(u, x) == PcOf(s, x) {}
    forall o: nat | o < |s.ops| && s.ops[o].alarm == Unarmed ensures s.ops[o].owner != t {
      assert PendingArm(PcOf(s, s.ops[o].owner)) == Some(o);
    }
  }

  lemma SubmitKeepsInv(s: State, t: nat, need: nat)
    requires Inv(s) && PcOf(s, t) == Idle
    ensures Inv(NextSubmit(s, t, need))
  {
    var u := NextSubmit(s, t, need);
    SubmitHands(s, t, need);
    SubmitArms(s, t, need);
    SubmitRest(s, t, need);
    hide Inv;
    InvFrom(u);
  }

  lemma SubmitRest(s: State, t: nat, need: nat)
    requires OpsOk(s) && QueueOk(s) && LockOk(s) && WireOk(s) && AttemptsOk(s) && PcOf(s, t) == Idle
    ensures var u := NextSubmit(s, t, need);
            OpsOk(u) && QueueOk(u) && LockOk(u) && WireOk(u) && AttemptsOk(u)
  {
    var u := NextSubmit(s, t, need);
    assert Front(u) == Front(s);
    WireSame(s, u);
    SameLock(s, u, t);
  }

  lemma RingShape(s: State, o: nat)
    requires o < |s.ops| && s.ops[o].alarm == Armed && OpOk(s.ops[o])
    ensures var u := NextRing(s, o);
            && u.(ops := s.ops, threads := s.threads) == s && u.threads == s.threads
            && OnlyOp(s, u, o) && Unseen(s.ops[o], u.ops[o]) && OpOk(u.ops[o])
            && forall x | 0 <= x < |s.ops| ::
                 u.ops[x].owner == s.ops[x].owner && (u.ops[x].alarm == Unarmed <==> s.ops[x].alarm == Unarmed)
  {
  }

  lemma RingKeepsInv(s: State, o: nat)
    requires Inv(s) && o < |s.ops| && s.ops[o].alarm == Armed
    ensures Inv(NextRing(s, o))
  {
    Parts(s);
    OpIsOk(s, o);
    var u := NextRing(s, o);
    RingShape(s, o);
    hide Inv, OpsOk, QueueOk, HandsOk, Kept, ArmsOk, LockOk, WireOk, AttemptsOk, NextRing, OnlyOp, Unseen, OpOk;
    ArmsSame(s, u);
    UnseenStep(s, u, 0, o);
  }

  lemma ExpiryKeepsInv(s: State, o: nat, u: State)
    requires Inv(s) && o < |s.ops| && |u.ops| == |s.ops| && u == s.(ops := s.ops[o := u.ops[o]])
    requires (s.ops[o].expiry == Marked && u.ops[o] == s.ops[o].(result := TimedOut, expiry := Named))
             || (s.ops[o].expiry == Named && u.ops[o] == s.ops[o].(resumes := s.ops[o].resumes + 1, expiry := Resumed))
    ensures Inv(u)
  {
    Parts(s);
    OpIsOk(s, o);
    hide Inv, OpsOk, QueueOk, HandsOk, Kept, ArmsOk, LockOk, WireOk, AttemptsOk;
    ArmsSame(s, u);
    UnseenStep(s, u, 0, o);
  }

  lemma ArmingKeepsInv(s: State, t: nat, o: nat)
    requires Inv(s) && PcOf(s, t) == Arming(o) && o < |s.ops|
    ensures Inv(At(s, t, Idle).(ops := s.ops[o := s.ops[o].(alarm := Armed)]))
  {
    Parts(s);
    OpIsOk(s, o);
    hide Inv, OpsOk, QueueOk, HandsOk, Kept, ArmsOk, LockOk, WireOk, AttemptsOk;
    var u := At(s, t, Idle).(ops := s.ops[o := s.ops[o].(alarm := Armed)]);
    ArmingArms(s, t, o);
    ArmingAlarm(s, t, o);
    UnseenStep(s, u, t, o);
  }

  lemma ArmingAlarm(s: State, t: nat, o: nat)
    requires ArmsOk(s) && PcOf(s, t) == Arming(o) && o < |s.ops|
    ensures s.ops[o].alarm == Unarmed
  {
    assert PendingArm(PcOf(s, t)) == Some(o);
  }

  lemma ArmingArms(s: State, t: nat, o: nat)
    requires ArmsOk(s) && PcOf(s, t) == Arming(o) && o < |s.ops|
    ensures ArmsOk(At(s, t, Idle).(ops := s.ops[o := s.ops[o].(alarm := Armed)]))
  {
    var u := At(s, t, Idle).(ops := s.ops[o := s.ops[o].(alarm := Armed)]);
    assert PendingArm(PcOf(s, t)) == Some(o);
    forall x | PendingArm(PcOf(u, x)).Some?
      ensures PendingArm(PcOf(u, x)).value < |u.ops|
      ensures u.ops[PendingArm(PcOf(u, x)).value].alarm == Unarmed
      ensures u.ops[PendingArm(PcOf(u, x)).value].owner == x
    {
      assert x != t && PcOf(u, x) == PcOf(s, x);
      assert s.ops[PendingArm(PcOf(s, x)).value].owner == x;
    }
    forall p: nat | p < |u.ops| && u.ops[p].alarm == Unarmed ensures PendingArm(PcOf(u, u.ops[p].owner)) == Some(p) {
      assert PendingArm(PcOf(s, s.ops[p].owner)) == Some(p);
    }
  }

  // ----- a thread deals with the first or the last operation in its hand

  predicate TailAsksLess(p: Pc, q: Pc, i: nat) {
    AsksLess(p, i + 1, q, i)
  }

  /** The thread's hand without its first operation, nothing else about it changed. */
  ghost predicate HeadLeaves(p: Pc, q: Pc) {
    && Hand(p) != [] && Hand(q) == Hand(p)[1..]
    && PendingArm(q) == PendingArm(p) && Locked(q) == Locked(p) && !NeedsHand(q)
    && forall i: nat | i < |Hand(q)| :: TailAsksLess(p, q, i)
  }

  lemma TailHand(s: State, u: State, t: nat, p: Pc, q: Pc)
    requires HandOk(s.ops, t, p) && HeadLeaves(p, q) && OnlyOp(s, u, Hand(p)[0])
    ensures HandOk(u.ops, t, q)
  {
    var h := Hand(p);
    forall i, j | 0 <= i < j < |h| - 1 ensures Hand(q)[i] < Hand(q)[j] { assert h[i + 1] < h[j + 1]; }
    forall i | 0 <= i < |h| - 1 ensures Holds(u.ops, t, q, i) {
      assert Holds(s.ops, t, p, i + 1);
      assert TailAsksLess(p, q, i);
      assert h[0] < h[i + 1];
    }
  }

  lemma HeadLeavesKeepsInv(s: State, u: State, t: nat)
    requires Inv(s) && HeadLeaves(PcOf(s, t), PcOf(u, t)) && OnlyThread(s, u, t)
    requires u.(ops := s.ops, threads := s.threads) == s
    requires OnlyOp(s, u, Hand(PcOf(s, t))[0])
    requires var a, b := s.ops[Hand(PcOf(s, t))[0]], u.ops[Hand(PcOf(s, t))[0]];
             OpOk(b) && (b.stage.Called? || b.stage.Dropped?) && b.moved == a.moved && b.alarm == a.alarm
    ensures Inv(u)
  {
    var o := Hand(PcOf(s, t))[0];
    Parts(s);
    HandIsOk(s, t);
    HeldOne(s, t, 0);
    hide Inv, OpsOk, QueueOk, HandsOk, Kept, ArmsOk, LockOk, WireOk, AttemptsOk, OpOk;
    TailHand(s, u, t, PcOf(s, t), PcOf(u, t));
    StageRest(s, u, o);
    SameLock(s, u, t);
    assert Hand(PcOf(s, t)) == [o] + Hand(PcOf(u, t));
    hide HandOk, Holds;
    HandStep(s, u, t, o);
  }

  lemma StageRest(s: State, u: State, o: nat)
    requires QueueOk(s) && WireOk(s) && AttemptsOk(s) && OnlyOp(s, u, o)
    requires !s.ops[o].stage.Queued? && !u.ops[o].stage.Queued? && u.ops[o].moved == s.ops[o].moved
    requires u.queue == s.queue && u.ready == s.ready && u.wire == s.wire
    requires u.performed == s.performed && u.attempts == s.attempts
    ensures QueueOk(u) && WireOk(u) && AttemptsOk(u)
  {
    assert Front(u) == Front(s);
    WireSame(s, u);
  }

  lemma ResumeKeepsInv(s: State, t: nat, next: Pc)
    requires Inv(s) && (PcOf(s, t).Resuming? || PcOf(s, t).EndResuming?)
    requires HeadLeaves(PcOf(s, t), next)
    ensures Hand(PcOf(s, t))[0] < |s.ops| && Inv(ResumeIo(s, t, Hand(PcOf(s, t))[0], next))
  {
    var o := Hand(PcOf(s, t))[0];
    Parts(s);
    HeldOne(s, t, 0);
    OpIsOk(s, o);
    hide Inv, OpsOk, QueueOk, HandsOk, Kept, ArmsOk, LockOk, WireOk, AttemptsOk, HandOk;
    var u := ResumeIo(s, t, o, next);
    hide Holds;
    HeadLeavesKeepsInv(s, u, t);
  }

  lemma DropSuits(op: Op, cont: Cont, rest: seq<nat>)
    requires OpOk(op) && op.timeoutFlag && op.stage.InHand? && rest != []
    ensures OpOk(op.(stage := Dropped))
    ensures HeadLeaves(EndLoop(cont, rest), EndLoop(cont, rest[1..]))
  {
  }

  lemma DropKeepsInv(s: State, t: nat, cont: Cont, rest: seq<nat>)
    requires Inv(s) && PcOf(s, t) == EndLoop(cont, rest) && rest != []
    requires rest[0] < |s.ops| && s.ops[rest[0]].timeoutFlag
    ensures Inv(DropTimedOut(s, t, rest[0], EndLoop(cont, rest[1..])))
  {
    hide Inv, OpOk, HeadLeaves, HandOk;
    HeadOf(s, t, 0);
    DropSuits(s.ops[rest[0]], cont, rest);
    HeadLeavesKeepsInv(s, DropTimedOut(s, t, rest[0], EndLoop(cont, rest[1..])), t);
  }

  lemma HeadOf(s: State, t: nat, k: nat)
    requires Inv(s) && k < |Hand(PcOf(s, t))|
    ensures Holds(s.ops, t, PcOf(s, t), k) && OpOk(s.ops[Hand(PcOf(s, t))[k]])
  {
    assert HandOk(s.ops, t, PcOf(s, t));
    assert Holds(s.ops, t, PcOf(s, t), k);
  }

  /** The thread keeps its hand; of every operation but the k-th its new position asks no more. */
  ghost predicate SameButOne(p: Pc, q: Pc, k: nat) {
    && k < |Hand(p)| && Hand(q) == Hand(p) && PendingArm(q) == PendingArm(p)
    && forall i: nat | i < |Hand(p)| && i != k :: AsksLess(p, i, q, i)
  }

  /** What position `q` asks of its k-th operation. */
  predicate Suits(t: nat, q: Pc, k: nat, op: Op) {
    && op.stage == InHand(t) && op.finishFlag == Decided(q, k)
    && (Settled(q, k) ==> IoResult(op)) && (Untouched(q, k) ==> op.moved == [])
  }

  lemma SameHandChanged(s: State, u: State, t: nat, p: Pc, q: Pc, k: nat)
    requires HandOk(s.ops, t, p) && SameButOne(p, q, k) && OnlyOp(s, u, Hand(p)[k])
    requires Suits(t, q, k, u.ops[Hand(p)[k]])
    ensures HandOk(u.ops, t, q)
  {
    forall i | 0 <= i < |Hand(q)| ensures Holds(u.ops, t, q, i) {
      assert Holds(s.ops, t, p, i);
      if i < k {
        assert Hand(p)[i] < Hand(p)[k] && AsksLess(p, i, q, i);
      } else if k < i {
        assert Hand(p)[k] < Hand(p)[i] && AsksLess(p, i, q, i);
      }
    }
  }

  lemma ChangeKeepsInv(s: State, u: State, t: nat, k: nat)
    requires Inv(s) && OnlyThread(s, u, t) && SameButOne(PcOf(s, t), PcOf(u, t), k)
    requires OnlyOp(s, u, Hand(PcOf(s, t))[k])
    requires u.queue == s.queue && u.ready == s.ready && u.wire == s.wire
    requires u.performed == s.performed && u.attempts == s.attempts && LockOk(u)
    requires var o := Hand(PcOf(s, t))[k];
             && OpOk(u.ops[o]) && Suits(t, PcOf(u, t), k, u.ops[o])
             && u.ops[o].moved == s.ops[o].moved && u.ops[o].alarm == s.ops[o].alarm
    ensures Inv(u)
  {
    var o := Hand(PcOf(s, t))[k];
    Parts(s);
    HandIsOk(s, t);
    HeldOne(s, t, k);
    hide Inv, OpsOk, QueueOk, HandsOk, Kept, ArmsOk, LockOk, WireOk, AttemptsOk, OpOk, HandOk;
    SameHandChanged(s, u, t, PcOf(s, t), PcOf(u, t), k);
    StageRest(s, u, o);
    hide Holds;
    HandStep(s, u, t, o);
  }

  lemma EndMarkSuits(s: State, t: nat, cont: Cont, rest: seq<nat>)
    requires rest != [] && rest[0] < |s.ops| && OpOk(s.ops[rest[0]]) && !s.ops[rest[0]].timeoutFlag
    requires Holds(s.ops, t, EndLoop(cont, rest), 0)
    ensures var op := s.ops[rest[0]].(finishFlag := true);
            && OpOk(op) && Suits(t, EndPublishing(cont, rest), 0, op)
            && SameButOne(EndLoop(cont, rest), EndPublishing(cont, rest), 0)
  {
  }

  lemma EndMarkKeepsInv(s: State, t: nat, cont: Cont, rest: seq<nat>)
    requires Inv(s) && PcOf(s, t) == EndLoop(cont, rest) && rest != []
    requires rest[0] < |s.ops| && !s.ops[rest[0]].timeoutFlag
    ensures Inv(At(s, t, EndPublishing(cont, rest)).(ops := s.ops[rest[0] := s.ops[rest[0]].(finishFlag := true)]))
  {
    hide Inv, OpOk, SameButOne, Suits, HandOk, Holds, OpsOk, QueueOk, HandsOk, Kept, ArmsOk, WireOk, AttemptsOk;
    var op := s.ops[rest[0]].(finishFlag := true);
    var u := At(s, t, EndPublishing(cont, rest)).(ops := s.ops[rest[0] := op]);
    Parts(s);
    HeadOf(s, t, 0);
    EndMarkSuits(s, t, cont, rest);
    SameLock(s, u, t);
    ChangeKeepsInv(s, u, t, 0);
  }

  lemma EndPublishSuits(s: State, t: nat, cont: Cont, rest: seq<nat>)
    requires rest != [] && rest[0] < |s.ops| && OpOk(s.ops[rest[0]])
    requires Holds(s.ops, t, EndPublishing(cont, rest), 0)
    ensures var op := s.ops[rest[0]].(result := Disconnected);
            && OpOk(op) && Suits(t, EndStopping(cont, rest), 0, op)
            && SameButOne(EndPublishing(cont, rest), EndStopping(cont, rest), 0)
  {
  }

  lemma EndPublishKeepsInv(s: State, t: nat, cont: Cont, rest: seq<nat>)
    requires Inv(s) && PcOf(s, t) == EndPublishing(cont, rest) && rest != [] && rest[0] < |s.ops|
    ensures Inv(At(s, t, EndStopping(cont, rest)).(ops := s.ops[rest[0] := s.ops[rest[0]].(result := Disconnected)]))
  {
    hide Inv, OpOk, SameButOne, Suits, HandOk, Holds, OpsOk, QueueOk, HandsOk, Kept, ArmsOk, WireOk, AttemptsOk;
    var op := s.ops[rest[0]].(result := Disconnected);
    var u := At(s, t, EndStopping(cont, rest)).(ops := s.ops[rest[0] := op]);
    Parts(s);
    HeadOf(s, t, 0);
    EndPublishSuits(s, t, cont, rest);
    SameLock(s, u, t);
    ChangeKeepsInv(s, u, t, 0);
  }

  // ----- DoOperateImp

  lemma PublishShape(s: State, t: nat, cont: Cont, fin: seq<nat>)
    requires PcOf(s, t) == Publishing(cont, fin) && fin != [] && fin[|fin| - 1] < |s.ops|
    ensures var o, u := fin[|fin| - 1], NextPublish(s, t, cont, fin);
            && OnlyOp(s, u, o) && OnlyThread(s, u, t) && Hand(PcOf(s, t))[|fin| - 1] == o && Locked(PcOf(s, t))
            && u.queue == s.queue && u.ready == s.ready && u.wire == s.wire
            && u.performed == s.performed && u.attempts == s.attempts
            && u.holder == (if Locked(PcOf(u, t)) then s.holder else None)
            && u.ops[o].moved == s.ops[o].moved && u.ops[o].alarm == s.ops[o].alarm
  {
  }

  lemma PublishKeepsInv(s: State, t: nat, cont: Cont, fin: seq<nat>)
    requires Inv(s) && PcOf(s, t) == Publishing(cont, fin) && fin != [] && fin[|fin| - 1] < |s.ops|
    ensures Inv(NextPublish(s, t, cont, fin))
  {
    hide Inv, OpOk, SameButOne, Suits, HandOk, Holds, OpsOk, QueueOk, HandsOk, Kept, ArmsOk, LockOk, WireOk, AttemptsOk,
         NextPublish, OnlyOp, OnlyThread, PcOf;
    var u := NextPublish(s, t, cont, fin);
    Parts(s);
    PublishShape(s, t, cont, fin);
    HeadOf(s, t, |fin| - 1);
    PublishSuits(s, t, cont, fin);
    UnlockOk(s, u, t);
    ChangeKeepsInv(s, u, t, |fin| - 1);
  }

  lemma ResultOk(op: Op)
    requires OpOk(op) && op.finishFlag && op.stage.InHand?
    ensures OpOk(op.(result := Fail)) && OpOk(op.(result := Success))
  {
  }

  lemma PublishSameButOne(s: State, t: nat, cont: Cont, fin: seq<nat>)
    requires fin != [] && fin[|fin| - 1] < |s.ops|
    ensures SameButOne(Publishing(cont, fin), PcOf(NextPublish(s, t, cont, fin), t), |fin| - 1)
  {
  }

  lemma PublishSuits(s: State, t: nat, cont: Cont, fin: seq<nat>)
    requires fin != [] && fin[|fin| - 1] < |s.ops| && OpOk(s.ops[fin[|fin| - 1]])
    requires Holds(s.ops, t, Publishing(cont, fin), |fin| - 1)
    ensures var u := NextPublish(s, t, cont, fin);
            var op := u.ops[fin[|fin| - 1]];
            && OpOk(op) && Suits(t, PcOf(u, t), |fin| - 1, op)
            && SameButOne(Publishing(cont, fin), PcOf(u, t), |fin| - 1)
  {
    var op := s.ops[fin[|fin| - 1]];
    assert op.finishFlag;
    ResultOk(op);
    hide OpOk, Holds, SameButOne;
    PublishSameButOne(s, t, cont, fin);
  }

  /** The thread that holds the lock either keeps it or gives it back. */
  lemma UnlockOk(s: State, u: State, t: nat)
    requires LockOk(s) && OnlyThread(s, u, t) && Locked(PcOf(s, t))
    requires u.holder == if Locked(PcOf(u, t)) then s.holder else None
    ensures LockOk(u)
  {
    assert s.holder == Some(t);
    forall x: nat ensures Locked(PcOf(u, x)) <==> u.holder == Some(x) {
      assert Locked(PcOf(s, x)) <==> s.holder == Some(x);
    }
  }

  lemma LockTaken(s: State, u: State, t: nat)
    requires LockOk(s) && OnlyThread(s, u, t) && s.holder == None
    requires Locked(PcOf(u, t)) && u.holder == Some(t)
    ensures LockOk(u)
  {
    forall x: nat ensures Locked(PcOf(u, x)) <==> u.holder == Some(x) {
      assert Locked(PcOf(s, x)) <==> s.holder == Some(x);
    }
  }

  /** The front operation leaves the queue. */
  lemma PopQueue(s: State, u: State)
    requires QueueOk(s) && s.queue != [] && u.queue == s.queue[1..] && u.ready == s.ready
    requires s.queue[0] == Front(s) && Front(s) < |s.ops| && OnlyOp(s, u, Front(s))
    requires !u.ops[Front(s)].stage.Queued?
    ensures QueueOk(u) && Front(u) == Front(s) + 1
  {
    forall i | 0 <= i < |u.queue| ensures u.queue[i] == Front(u) + i { assert u.queue[i] == s.queue[i + 1]; }
  }

  lemma PopAttempts(s: State, u: State)
    requires AttemptsOk(s) && Front(u) == Front(s) + 1 && Front(s) >= 0
    requires u.attempts == s.attempts || u.attempts == s.attempts + [Front(s)]
    ensures AttemptsOk(u)
  {
  }

  lemma DropFrontShape(s: State, t: nat, cont: Cont, fin: seq<nat>)
    requires PcOf(s, t) == Looping(cont, fin) && s.queue != [] && s.queue[0] < |s.ops|
    ensures var o, u := s.queue[0], DropTimedOut(s, t, s.queue[0], Looping(cont, fin)).(queue := s.queue[1..]);
            && OnlyOp(s, u, o) && OnlyThread(s, u, t) && PcOf(u, t) == PcOf(s, t)
            && u.ops[o] == s.ops[o].(stage := Dropped)
            && u.queue == s.queue[1..] && u.ready == s.ready && u.holder == s.holder && u.wire == s.wire
            && u.performed == s.performed && u.attempts == s.attempts
            && forall x | 0 <= x < |s.ops| :: u.ops[x].moved == s.ops[x].moved
  {
  }

  lemma DropFrontKeepsInv(s: State, t: nat, cont: Cont, fin: seq<nat>)
    requires Inv(s) && PcOf(s, t) == Looping(cont, fin) && s.queue != []
    requires s.queue[0] < |s.ops| && s.ops[s.queue[0]].timeoutFlag
    ensures Inv(DropTimedOut(s, t, s.queue[0], Looping(cont, fin)).(queue := s.queue[1..]))
  {
    var o := s.queue[0];
    var u := DropTimedOut(s, t, o, Looping(cont, fin)).(queue := s.queue[1..]);
    Parts(s);
    FrontFirst(s);
    OpIsOk(s, o);
    HandIsOk(s, t);
    DropFrontShape(s, t, cont, fin);
    hide Inv, OpsOk, QueueOk, HandsOk, Kept, ArmsOk, LockOk, WireOk, AttemptsOk, HandOk, DropTimedOut, OnlyOp,
         OnlyThread;
    OnlyOpLength(s, u, o);
    PopQueue(s, u);
    PopAttempts(s, u);
    WireSame(s, u);
    SameLock(s, u, t);
    OtherHand(s, u, o, t);
    hide Hand;
    HandStep(s, u, t, o);
  }

  lemma AttemptParts(s: State, u: State, a: seq<nat>)
    requires OpsOk(s) && QueueOk(s) && HandsOk(s) && Kept(s) && ArmsOk(s) && LockOk(s) && WireOk(s) && AttemptsOk(s)
    requires |a| == 1 && a[0] == Front(s) && u == s.(attempts := s.attempts + a)
    ensures OpsOk(u) && QueueOk(u) && HandsOk(u) && Kept(u) && ArmsOk(u) && LockOk(u) && WireOk(u) && AttemptsOk(u)
  {
    hide OpOk, HandOk;
    forall x ensures PcOf(u, x) == PcOf(s, x) {}
  }

  lemma AttemptNoted(s: State, a: seq<nat>)
    requires Inv(s) && |a| == 1 && a[0] == Front(s)
    ensures Inv(s.(attempts := s.attempts + a))
  {
    var u := s.(attempts := s.attempts + a);
    Parts(s);
    hide Inv;
    AttemptParts(s, u, a);
    InvFrom(u);
  }

  lemma JoinAppend(a: seq<Op>, b: seq<Op>, p: seq<nat>, o: nat)
    requires |a| == |b| && o < |b| && forall i | 0 <= i < |p| :: p[i] < |a| && b[p[i]].moved == a[p[i]].moved
    ensures Join(b, p + [o]) == Join(a, p) + b[o].moved
  {
    assert (p + [o])[..|p|] == p;
    JoinSame(a, b, p);
  }

  /** An operation that has just moved its bytes is the newest performed one. */
  lemma PerformedGrows(s: State, u: State, o: nat)
    requires Increasing(s.performed) && forall i | 0 <= i < |s.performed| :: s.performed[i] < o
    requires forall p | 0 <= p < |s.ops| :: s.ops[p].moved != [] <==> p in s.performed
    requires OnlyOp(s, u, o) && u.ops[o].moved != [] && u.performed == s.performed + [o]
    ensures Increasing(u.performed)
    ensures forall p | 0 <= p < |u.ops| :: u.ops[p].moved != [] <==> p in u.performed
  {
    forall p | 0 <= p < |u.ops| ensures u.ops[p].moved != [] <==> p in u.performed {
      if p == o {
        assert u.performed[|s.performed|] == o;
      } else {
        assert u.ops[p] == s.ops[p];
      }
    }
  }

  lemma BytesWire(s: State, u: State, o: nat, bytes: seq<Byte>)
    requires WireOk(s) && o == Front(s) && OnlyOp(s, u, o) && Front(u) == Front(s) + 1
    requires u.ops[o].moved == bytes && bytes != [] && u.wire == s.wire + bytes && u.performed == s.performed + [o]
    ensures WireOk(u)
  {
    hide Join;
    forall i | 0 <= i < |s.performed| ensures u.ops[s.performed[i]].moved == s.ops[s.performed[i]].moved {
      assert s.performed[i] < o;
    }
    JoinAppend(s.ops, u.ops, s.performed, o);
    PerformedGrows(s, u, o);
    forall i | 0 <= i < |u.performed| ensures u.performed[i] < Front(u) <= |u.ops| {
      assert i < |s.performed| ==> u.performed[i] == s.performed[i];
    }
  }

  /** What one transfer does to the wire: the operation's bytes are appended and it is noted as performed. */
  lemma TransferWire(s: State, u: State, o: nat, bytes: seq<Byte>)
    requires WireOk(s) && o == Front(s) && OnlyOp(s, u, o) && Front(u) == Front(s) + 1
    requires s.ops[o].moved == [] && u.ops[o].moved == bytes && u.wire == s.wire + bytes
    requires u.performed == if bytes != [] then s.performed + [o] else s.performed
    ensures WireOk(u)
  {
    if bytes != [] {
      hide WireOk;
      BytesWire(s, u, o, bytes);
    } else {
      assert u.wire == s.wire;
      hide WireOk, Join;
      WireSame(s, u);
    }
  }

  lemma AppendHand(s: State, u: State, t: nat, cont: Cont, fin: seq<nat>, o: nat)
    requires HandOk(s.ops, t, Looping(cont, fin)) && OnlyOp(s, u, o)
    requires forall i | 0 <= i < |fin| :: fin[i] < o
    requires Suits(t, Publishing(cont, fin + [o]), |fin|, u.ops[o])
    ensures HandOk(u.ops, t, Publishing(cont, fin + [o]))
  {
    var q := Publishing(cont, fin + [o]);
    forall i | 0 <= i < |fin| + 1 ensures Holds(u.ops, t, q, i) {
      if i < |fin| { assert Holds(s.ops, t, Looping(cont, fin), i); }
    }
  }

  lemma HandBeforeFront(s: State, t: nat, fin: seq<nat>)
    requires QueueOk(s) && HandsOk(s) && Hand(PcOf(s, t)) == fin
    ensures forall i | 0 <= i < |fin| :: fin[i] < Front(s)
  {
    forall i | 0 <= i < |fin| ensures fin[i] < Front(s) { HeldOne(s, t, i); }
  }

  lemma TransferShape(s: State, t: nat, cont: Cont, fin: seq<nat>, bytes: seq<Byte>)
    requires PcOf(s, t) == Looping(cont, fin) && s.queue != [] && s.queue[0] < |s.ops|
    ensures var o, u := s.queue[0], Transfer(s, t, cont, fin, bytes);
            && OnlyOp(s, u, o) && OnlyThread(s, u, t) && PcOf(u, t) == Publishing(cont, fin + [o])
            && u.ops[o] == s.ops[o].(finishFlag := true, stage := InHand(t), moved := bytes)
            && u.queue == s.queue[1..] && u.ready == s.ready && u.holder == s.holder && u.wire == s.wire + bytes
            && u.performed == (if bytes != [] then s.performed + [o] else s.performed)
            && u.attempts == s.attempts + [o]
  {
  }

  /** An operation at the front that is taken off and finished keeps its record in order. */
  lemma TransferSuits(op: Op, t: nat, cont: Cont, hand: seq<nat>, bytes: seq<Byte>)
    requires OpOk(op) && op.stage.Queued? && !op.timeoutFlag && |bytes| <= op.need && hand != []
    ensures var done := op.(finishFlag := true, stage := InHand(t), moved := bytes);
            OpOk(done) && Suits(t, Publishing(cont, hand), |hand| - 1, done) && op.moved == []
  {
  }

  lemma TransferKeepsInv(s: State, t: nat, cont: Cont, fin: seq<nat>, bytes: seq<Byte>)
    requires Inv(s) && PcOf(s, t) == Looping(cont, fin) && s.queue != []
    requires s.queue[0] < |s.ops| && !s.ops[s.queue[0]].timeoutFlag && |bytes| <= s.ops[s.queue[0]].need
    ensures Inv(Transfer(s, t, cont, fin, bytes))
  {
    var o := s.queue[0];
    var u := Transfer(s, t, cont, fin, bytes);
    Parts(s);
    FrontFirst(s);
    OpIsOk(s, o);
    HandIsOk(s, t);
    HandBeforeFront(s, t, fin);
    TransferShape(s, t, cont, fin, bytes);
    hide Inv, OpsOk, QueueOk, HandsOk, Kept, ArmsOk, LockOk, WireOk, AttemptsOk, Transfer, OnlyOp, OnlyThread, HandOk,
         Holds;
    TransferSuits(s.ops[o], t, cont, fin + [o], bytes);
    hide OpOk, Suits;
    OnlyOpLength(s, u, o);
    PopQueue(s, u);
    PopAttempts(s, u);
    TransferWire(s, u, o, bytes);
    SameLock(s, u, t);
    AppendHand(s, u, t, cont, fin, o);
    assert (fin + [o])[|fin|] == o;
    HandStep(s, u, t, o);
  }

  lemma LoopEndsInFlag(cont: Cont, fin: seq<nat>, ready: bool)
    ensures SameHand(Looping(cont, fin), Flagging(cont, fin, ready))
    ensures SameHand(Locking(cont), Looping(cont, []))
  {
  }

  lemma UnlockKeepsInv(s: State, t: nat, cont: Cont, fin: seq<nat>)
    requires Inv(s) && PcOf(s, t) == Looping(cont, fin)
    ensures Inv(At(s, t, Flagging(cont, fin, s.queue == [])).(holder := None))
  {
    var u := At(s, t, Flagging(cont, fin, s.queue == [])).(holder := None);
    Parts(s);
    LoopEndsInFlag(cont, fin, s.queue == []);
    hide Inv, OpsOk, QueueOk, HandsOk, Kept, ArmsOk, LockOk, WireOk, AttemptsOk, SameHand;
    UnlockOk(s, u, t);
    SameQueues(s, u);
    PcStep(s, u, t);
  }

  lemma WouldBlockKeepsInv(s: State, t: nat, cont: Cont, fin: seq<nat>)
    requires Inv(s) && PcOf(s, t) == Looping(cont, fin) && s.queue != []
    ensures Inv(At(s, t, Flagging(cont, fin, false)).(holder := None, attempts := s.attempts + [s.queue[0]]))
  {
    var u := At(s, t, Flagging(cont, fin, false)).(holder := None);
    Parts(s);
    FrontFirst(s);
    hide Inv, OpsOk, QueueOk, HandsOk, Kept, ArmsOk, LockOk, WireOk, AttemptsOk;
    UnlockKeepsInv(s, t, cont, fin);
    AttemptNoted(u, [s.queue[0]]);
  }

  lemma IoKeepsInv(s: State, t: nat, cont: Cont, fin: seq<nat>, io: Io)
    requires Inv(s) && PcOf(s, t) == Looping(cont, fin) && (s.queue != [] ==> IoAllowed(s, s.queue[0], io))
    ensures Inv(NextIo(s, t, cont, fin, io))
  {
    hide Inv;
    if s.queue == [] {
      UnlockKeepsInv(s, t, cont, fin);
    } else if s.ops[s.queue[0]].timeoutFlag {
      DropFrontKeepsInv(s, t, cont, fin);
    } else if io.WouldBlock? {
      WouldBlockKeepsInv(s, t, cont, fin);
    } else {
      TransferKeepsInv(s, t, cont, fin, if io.Bytes? then io.bytes else []);
    }
  }

  // ----- EndAllOperate's first section

  lemma TakeAllOps(s: State, t: nat, cont: Cont)
    requires OpsOk(s) && QueueOk(s)
    ensures Front(s) >= 0
    ensures var u := TakeAll(s, t, cont);
            && |u.ops| == |s.ops|
            && (forall o | 0 <= o < |s.ops| ::
                  u.ops[o] == if o < Front(s) then s.ops[o] else s.ops[o].(stage := InHand(t)))
            && OpsOk(u) && QueueOk(u) && Front(u) == |s.ops|
  {
    var u := TakeAll(s, t, cont);
    var all := s.queue + s.ready;
    forall o | 0 <= o < |s.ops| ensures o in all <==> o >= Front(s) {
      if o >= Front(s) { assert all[o - Front(s)] == o; }
    }
    forall o | 0 <= o < |u.ops| ensures OpOk(u.ops[o]) { assert OpOk(s.ops[o]); }
  }

  lemma QueuedIsFresh(s: State, i: nat)
    requires OpsOk(s) && QueueOk(s) && i < |s.queue + s.ready|
    ensures var all := s.queue + s.ready;
            && all[i] == Front(s) + i < |s.ops|
            && s.ops[all[i]].stage.Queued? && !s.ops[all[i]].finishFlag && s.ops[all[i]].moved == []
  {
    var all := s.queue + s.ready;
    assert all[i] == Front(s) + i;
    assert OpOk(s.ops[all[i]]);
  }

  lemma TakenIsHeld(s: State, t: nat, cont: Cont, i: nat)
    requires OpsOk(s) && QueueOk(s) && i < |s.queue + s.ready|
    ensures (s.queue + s.ready)[i] == Front(s) + i
    ensures Holds(TakeAll(s, t, cont).ops, t, EndLoop(cont, s.queue + s.ready), i)
  {
    hide TakeAll, PutInHand, OpsOk, QueueOk, OpOk;
    TakeAllOps(s, t, cont);
    QueuedIsFresh(s, i);
  }

  lemma TakeAllOwn(s: State, t: nat, cont: Cont)
    requires OpsOk(s) && QueueOk(s)
    ensures HandOk(TakeAll(s, t, cont).ops, t, EndLoop(cont, s.queue + s.ready))
  {
    hide TakeAll, OpsOk, QueueOk, Holds;
    forall i | 0 <= i < |s.queue + s.ready|
      ensures (s.queue + s.ready)[i] == Front(s) + i
      ensures Holds(TakeAll(s, t, cont).ops, t, EndLoop(cont, s.queue + s.ready), i)
    {
      TakenIsHeld(s, t, cont, i);
    }
  }

  lemma TakeAllOther(s: State, t: nat, cont: Cont, x: nat)
    requires OpsOk(s) && QueueOk(s) && HandOk(s.ops, x, PcOf(s, x))
    ensures HandOk(TakeAll(s, t, cont).ops, x, PcOf(s, x))
  {
    TakeAllOps(s, t, cont);
    forall i | 0 <= i < |Hand(PcOf(s, x))| ensures Holds(TakeAll(s, t, cont).ops, x, PcOf(s, x), i) {
      assert Holds(s.ops, x, PcOf(s, x), i);
    }
  }

  lemma TakeAllHands(s: State, t: nat, cont: Cont)
    requires OpsOk(s) && QueueOk(s) && HandsOk(s) && PcOf(s, t) == Ending(cont)
    ensures HandsOk(TakeAll(s, t, cont))
  {
    var u := TakeAll(s, t, cont);
    TakeAllOwn(s, t, cont);
    forall x ensures HandOk(u.ops, x, PcOf(u, x)) {
      assert HandOk(s.ops, x, PcOf(s, x));
      hide HandOk, OpsOk, QueueOk;
      if x != t { TakeAllOther(s, t, cont, x); }
    }
  }

  lemma TakeAllKept(s: State, t: nat, cont: Cont)
    requires OpsOk(s) && QueueOk(s) && Kept(s) && PcOf(s, t) == Ending(cont)
    ensures Kept(TakeAll(s, t, cont))
  {
    hide PutInHand, OpsOk, QueueOk, OpOk;
    var u := TakeAll(s, t, cont);
    TakeAllOps(s, t, cont);
    var all := s.queue + s.ready;
    forall o: nat | o < |u.ops| && u.ops[o].stage.InHand? ensures o in Hand(PcOf(u, u.ops[o].stage.thread)) {
      if o >= Front(s) {
        QueuedIsFresh(s, o - Front(s));
      } else {
        assert o in Hand(PcOf(s, s.ops[o].stage.thread));
      }
    }
  }

  lemma TakeAllArms(s: State, t: nat, cont: Cont)
    requires OpsOk(s) && QueueOk(s) && ArmsOk(s) && PcOf(s, t) == Ending(cont)
    ensures ArmsOk(TakeAll(s, t, cont))
  {
    var u := TakeAll(s, t, cont);
    TakeAllOps(s, t, cont);
    forall x ensures PendingArm(PcOf(u, x)) == PendingArm(PcOf(s, x)) {}
    ArmsSame(s, u);
  }

  lemma TakeAllRest(s: State, t: nat, cont: Cont)
    requires OpsOk(s) && QueueOk(s) && LockOk(s) && WireOk(s) && AttemptsOk(s) && PcOf(s, t) == Ending(cont)
    ensures var u := TakeAll(s, t, cont);
            LockOk(u) && WireOk(u) && AttemptsOk(u)
  {
    var u := TakeAll(s, t, cont);
    TakeAllOps(s, t, cont);
    SameLock(s, u, t);
    WireSame(s, u);
  }

  lemma TakeAllKeepsInv(s: State, t: nat, cont: Cont)
    requires Inv(s) && PcOf(s, t) == Ending(cont)
    ensures Inv(TakeAll(s, t, cont))
  {
    TakeAllOps(s, t, cont);
    TakeAllHands(s, t, cont);
    TakeAllKept(s, t, cont);
    TakeAllArms(s, t, cont);
    TakeAllRest(s, t, cont);
    hide Inv, TakeAll;
    InvFrom(TakeAll(s, t, cont));
  }

  // ----- all steps

  /** A step that only moves the thread, without the lock. */
  lemma PlainKeepsInv(s: State, u: State, t: nat, q: Pc)
    requires Inv(s) && u == At(s, t, q).(operateable := u.operateable, run := u.run)
    requires SameHand(PcOf(s, t), q) && !Locked(PcOf(s, t)) && !Locked(q)
    ensures Inv(u)
  {
    Parts(s);
    hide Inv, OpsOk, QueueOk, HandsOk, Kept, ArmsOk, LockOk, WireOk, AttemptsOk, SameHand;
    SameLock(s, u, t);
    SameQueues(s, u);
    PcStep(s, u, t);
  }

  lemma LockingKeepsInv(s: State, t: nat, cont: Cont)
    requires Inv(s) && PcOf(s, t) == Locking(cont) && s.holder == None
    ensures Inv(At(s, t, Looping(cont, [])).(holder := Some(t), queue := s.queue + s.ready, ready := []))
  {
    var u := At(s, t, Looping(cont, [])).(holder := Some(t), queue := s.queue + s.ready, ready := []);
    Parts(s);
    LoopEndsInFlag(cont, [], true);
    hide Inv, OpsOk, QueueOk, HandsOk, Kept, ArmsOk, LockOk, WireOk, AttemptsOk, SameHand;
    LockTaken(s, u, t);
    SameQueues(s, u);
    PcStep(s, u, t);
  }

  lemma EndKeepsInv(s: State, t: nat, cont: Cont, rest: seq<nat>)
    requires Inv(s) && PcOf(s, t) == EndLoop(cont, rest) && (rest != [] ==> rest[0] < |s.ops|)
    ensures Inv(NextEnd(s, t, cont, rest))
  {
    hide Inv;
    if rest == [] {
      PlainKeepsInv(s, NextEnd(s, t, cont, rest), t, After(cont));
    } else if s.ops[rest[0]].timeoutFlag {
      DropKeepsInv(s, t, cont, rest);
    } else {
      EndMarkKeepsInv(s, t, cont, rest);
    }
  }

  lemma CallingKeepsInv(s: State, t: nat, cont: Cont, fin: seq<nat>)
    requires Inv(s) && PcOf(s, t) == Calling(cont, fin)
    ensures Inv(At(s, t, if fin != [] then Resuming(cont, fin) else if s.run then After(cont) else Ending(cont)))
  {
    hide Inv;
    var q := if fin != [] then Resuming(cont, fin) else if s.run then After(cont) else Ending(cont);
    assert SameHand(Calling(cont, fin), q);
    hide SameHand;
    PlainKeepsInv(s, At(s, t, q), t, q);
  }

  lemma EndStepKeepsInv(s: State, t: nat, io: Io)
    requires Inv(s) && Enabled(s, Step(t, io))
    requires var pc := PcOf(s, t);
             pc.Ending? || pc.EndLoop? || pc.EndPublishing? || pc.EndStopping? || pc.EndResuming?
    ensures Inv(NextStep(s, t, io))
  {
    hide Inv;
    match PcOf(s, t)
    case Ending(cont) => TakeAllKeepsInv(s, t, cont);
    case EndLoop(cont, rest) =>
      if rest != [] { HeadOf(s, t, 0); }
      EndKeepsInv(s, t, cont, rest);
    case EndPublishing(cont, rest) => HeadOf(s, t, 0); EndPublishKeepsInv(s, t, cont, rest);
    case EndStopping(cont, rest) => PlainKeepsInv(s, NextStep(s, t, io), t, EndResuming(cont, rest));
    case EndResuming(cont, rest) => ResumeKeepsInv(s, t, EndLoop(cont, rest[1..]));
  }

  /** Every step of every thread keeps the invariant. */
  lemma StepKeepsInv(s: State, t: nat, io: Io)
    requires Inv(s) && Enabled(s, Step(t, io))
    ensures Inv(NextStep(s, t, io))
  {
    hide Inv;
    match PcOf(s, t)
    case Checking(o) =>
      PlainKeepsInv(s, NextStep(s, t, io), t, if s.operateable then Entering(Arm(o)) else Arming(o));
    case Arming(o) => ArmingKeepsInv(s, t, o);
    case Entering(cont) => PlainKeepsInv(s, NextStep(s, t, io), t, Locking(cont));
    case Locking(cont) => LockingKeepsInv(s, t, cont);
    case Looping(cont, fin) => IoKeepsInv(s, t, cont, fin, io);
    case Publishing(cont, fin) => PublishKeepsInv(s, t, cont, fin);
    case Flagging(cont, fin, ready) => PlainKeepsInv(s, NextStep(s, t, io), t, Calling(cont, fin));
    case Calling(cont, fin) => CallingKeepsInv(s, t, cont, fin);
    case Resuming(cont, fin) => ResumeKeepsInv(s, t, Calling(cont, fin[1..]));
    case _ => EndStepKeepsInv(s, t, io);
  }

  lemma StartKeepsInv(s: State)
    requires Inv(s)
    ensures Inv(s.(run := true))
  {
    var u := s.(run := true);
    Parts(s);
    hide Inv, OpsOk, QueueOk, HandsOk, Kept, ArmsOk, LockOk, WireOk, AttemptsOk;
    SameLock(s, u, 0);
    SameQueues(s, u);
    assert SameHand(PcOf(s, 0), PcOf(u, 0));
    hide SameHand;
    PcStep(s, u, 0);
  }

  lemma NextKeepsInv(s: State, a: Action)
    requires Inv(s) && Enabled(s, a)
    ensures Inv(Next(s, a))
  {
    hide Inv;
    match a
    case Start => StartKeepsInv(s);
    case Submit(t, need) => SubmitKeepsInv(s, t, need);
    case OnOperate(t) => PlainKeepsInv(s, Next(s, a), t, Entering(Back));
    case Stop(t) => PlainKeepsInv(s, Next(s, a), t, Ending(Back));
    case Step(t, io) => StepKeepsInv(s, t, io);
    case Ring(o) => RingKeepsInv(s, o);
    case ExpiryName(o) => ExpiryKeepsInv(s, o, Next(s, a));
    case ExpiryResume(o) => ExpiryKeepsInv(s, o, Next(s, a));
  }
}
