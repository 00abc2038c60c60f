/** Expectations with prerequisites: the walks over the prerequisite graph, and the handling of mock calls. */
module Expectations {

  /** An expectation. Its prerequisites and its cardinality are fixed once it is declared; `rank` is any numbering
      in which prerequisites come first, such as the order of declaration. */
  class Expectation {
    ghost const rank: nat
    const prereqs: seq<Expectation>
    const min: nat
    const max: nat
    const retiresOnSaturation: bool
    var callCount: nat
    var retired: bool

    constructor (prereqs: seq<Expectation>, min: nat, max: nat, retiresOnSaturation: bool, ghost rank: nat)
      ensures this.prereqs == prereqs && this.min == min && this.max == max && this.rank == rank
      ensures this.retiresOnSaturation == retiresOnSaturation
      ensures callCount == 0 && !retired
    {
      this.prereqs, this.min, this.max, this.rank := prereqs, min, max, rank;
      this.retiresOnSaturation := retiresOnSaturation;
      callCount, retired := 0, false;
    }

    predicate IsSatisfied()
      reads this
    {
      min <= callCount <= max
    }

    predicate IsSaturated()
      reads this
    {
      callCount >= max
    }

    ghost predicate Acyclic()
      decreases rank
    {
      forall p | p in prereqs :: p.rank < rank && p.Acyclic()
    }

    /** Every transitive prerequisite. */
    ghost function Ancestors(): (s: set<Expectation>)
      requires Acyclic()
      ensures forall a | a in s :: a.rank < rank && a.Acyclic()
      decreases rank, 1, 0
    {
      AncestorsOf(prereqs, rank)
    }
  }

  ghost function AncestorsOf(ps: seq<Expectation>, bound: nat): (s: set<Expectation>)
    requires forall p | p in ps :: p.rank < bound && p.Acyclic()
    ensures forall a | a in s :: a.rank < bound && a.Acyclic()
    decreases bound, 0, |ps|
  {
    if ps == [] then {} else {ps[0]} + ps[0].Ancestors() + AncestorsOf(ps[1..], bound)
  }

  lemma {:induction false} AncestorsOfMembers(ps: seq<Expectation>, bound: nat, a: Expectation)
    requires forall p | p in ps :: p.rank < bound && p.Acyclic()
    ensures a in AncestorsOf(ps, bound) <==> exists p | p in ps :: a == p || a in p.Ancestors()
    decreases |ps|
  {
    if ps != [] {
      AncestorsOfMembers(ps[1..], bound, a);
      assert forall p :: p in ps <==> p == ps[0] || p in ps[1..];
    }
  }

  lemma AncestorCases(e: Expectation, a: Expectation)
    requires e.Acyclic()
    ensures a in e.Ancestors() <==> exists p | p in e.prereqs :: a == p || a in p.Ancestors()
  {
    AncestorsOfMembers(e.prereqs, e.rank, a);
  }

  lemma PrereqsAreAncestors(e: Expectation, p: Expectation)
    requires e.Acyclic() && p in e.prereqs
    ensures p in e.Ancestors() && p.Ancestors() <= e.Ancestors()
  {
    AncestorCases(e, p);
    forall a | a in p.Ancestors() ensures a in e.Ancestors() {
      AncestorCases(e, a);
    }
  }

  /** `chain` leads from `e` to its last member, each member a prerequisite of the one before. */
  ghost predicate IsChain(e: Expectation, chain: seq<Expectation>) {
    && chain != []
    && chain[0] in e.prereqs
    && (forall i | 0 <= i < |chain| - 1 :: chain[i + 1] in chain[i].prereqs)
  }

  /** The ancestors are the transitive closure of the prerequisite relation. */
  lemma {:induction false} ChainLeadsToAncestor(e: Expectation, chain: seq<Expectation>)
    requires e.Acyclic() && IsChain(e, chain)
    ensures chain[|chain| - 1] in e.Ancestors()
    decreases |chain|
  {
    PrereqsAreAncestors(e, chain[0]);
    if |chain| > 1 {
      assert IsChain(chain[0], chain[1..]);
      ChainLeadsToAncestor(chain[0], chain[1..]);
    }
  }

  lemma {:induction false} AncestorHasChain(e: Expectation, a: Expectation) returns (chain: seq<Expectation>)
    requires e.Acyclic() && a in e.Ancestors()
    ensures IsChain(e, chain) && chain[|chain| - 1] == a
    decreases e.rank
  {
    AncestorCases(e, a);
    var p :| p in e.prereqs && (a == p || a in p.Ancestors());
    if a == p {
      chain := [p];
    } else {
      var rest := AncestorHasChain(p, a);
      chain := [p] + rest;
    }
  }

  lemma {:induction false} AncestorsNest(e: Expectation, a: Expectation)
    requires e.Acyclic() && a in e.Ancestors()
    ensures a.Ancestors() <= e.Ancestors()
    decreases e.rank
  {
    AncestorCases(e, a);
    var p :| p in e.prereqs && (a == p || a in p.Ancestors());
    PrereqsAreAncestors(e, p);
    if a != p { AncestorsNest(p, a); }
  }

  // ----- termination of the walks: the number of paths still to be walked

  ghost function Paths(e: Expectation): nat
    requires e.Acyclic()
    decreases e.rank, 1, 0
  {
    1 + PathsOf(e.prereqs, e.rank)
  }

  ghost function PathsOf(ps: seq<Expectation>, bound: nat): nat
    requires forall p | p in ps :: p.rank < bound && p.Acyclic()
    decreases bound, 0, |ps|
  {
    if ps == [] then 0 else Paths(ps[|ps| - 1]) + PathsOf(ps[..|ps| - 1], bound)
  }

  ghost function Weight(stack: seq<Expectation>): nat
    requires AllAcyclic(stack)
  {
    if stack == [] then 0 else Paths(stack[|stack| - 1]) + Weight(stack[..|stack| - 1])
  }

  ghost predicate AllAcyclic(stack: seq<Expectation>) {
    forall e | e in stack :: e.Acyclic()
  }

  lemma PathsOfStep(e: Expectation, k: nat)
    requires e.Acyclic() && k < |e.prereqs|
    ensures PathsOf(e.prereqs[..k + 1], e.rank) == Paths(e.prereqs[k]) + PathsOf(e.prereqs[..k], e.rank)
  {
    assert e.prereqs[..k + 1][..k] == e.prereqs[..k];
  }

  lemma PopWeighs(stack: seq<Expectation>)
    requires AllAcyclic(stack) && stack != []
    ensures var last := stack[|stack| - 1];
            && last.Acyclic()
            && AllAcyclic(stack[..|stack| - 1])
            && Weight(stack) == Weight(stack[..|stack| - 1]) + 1 + PathsOf(last.prereqs, last.rank)
            && PathsOf(last.prereqs[..0], last.rank) == 0
  {
    assert stack[|stack| - 1] in stack;
  }

  lemma PushWeighs(stack: seq<Expectation>, e: Expectation)
    requires AllAcyclic(stack) && e.Acyclic()
    ensures AllAcyclic(stack + [e]) && Weight(stack + [e]) == Weight(stack) + Paths(e)
  {
    assert (stack + [e])[..|stack|] == stack;
  }

  // ----- what the walks compute

  ghost predicate AncestorsSatisfied(e: Expectation)
    requires e.Acyclic()
    reads e.Ancestors()
  {
    forall a | a in e.Ancestors() :: a.IsSatisfied()
  }

  /** What the walk still has to look at: every unsatisfied ancestor of `e` is, or is above, something pending. */
  ghost predicate Covered(e: Expectation, stack: seq<Expectation>, pending: seq<Expectation>)
    requires e.Acyclic() && AllAcyclic(stack) && AllAcyclic(pending)
    reads e.Ancestors()
  {
    forall a | a in e.Ancestors() && !a.IsSatisfied() ::
      (exists s | s in stack :: a in s.Ancestors()) || (exists p | p in pending :: a == p || a in p.Ancestors())
  }

  ghost predicate Within(e: Expectation, stack: seq<Expectation>)
    requires e.Acyclic()
  {
    forall s | s in stack :: s == e || s in e.Ancestors()
  }

  method AllPrerequisitesAreSatisfied(self: Expectation) returns (ok: bool)
    requires self.Acyclic()
    ensures ok <==> AncestorsSatisfied(self)
  {
    hide Covered, Weight, Paths, PathsOf;
    var stack := [self];
    CoveredAtEnds(self);
    while stack != []
      invariant AllAcyclic(stack) && Within(self, stack)
      invariant Covered(self, stack, [])
      decreases Weight(stack)
    {
      var exp := stack[|stack| - 1];
      ghost var before := stack;
      stack := stack[..|stack| - 1];
      ghost var base := Weight(stack);
      AncestorsOfMember(self, exp);
      PopKeepsCovered(self, before);
      PopWeighs(before);
      assert exp.prereqs[0..] == exp.prereqs && exp.prereqs[..0] == [];
      for k := 0 to |exp.prereqs|
        invariant AllAcyclic(stack) && Within(self, stack)
        invariant Weight(stack) == base + PathsOf(exp.prereqs[..k], exp.rank)
        invariant Covered(self, stack, exp.prereqs[k..])
      {
        var next := exp.prereqs[k];
        if !next.IsSatisfied() {
          return false;
        }
        PushKeepsCovered(self, stack, exp.prereqs[k..]);
        assert exp.prereqs[k..][1..] == exp.prereqs[k + 1..];
        PushWeighs(stack, next);
        PathsOfStep(exp, k);
        stack := stack + [next];
      }
      assert exp.prereqs[..|exp.prereqs|] == exp.prereqs && exp.prereqs[|exp.prereqs|..] == [];
    }
    assert stack == [] && Covered(self, stack, []);
    CoveredAtEnds(self);
    return true;
  }

  lemma AncestorsOfMember(e: Expectation, s: Expectation)
    requires e.Acyclic() && (s == e || s in e.Ancestors())
    ensures s.Ancestors() <= e.Ancestors()
    ensures forall p | p in s.prereqs :: p in e.Ancestors()
  {
    if s != e { AncestorsNest(e, s); }
    forall p | p in s.prereqs ensures p in e.Ancestors() { PrereqsAreAncestors(s, p); }
  }

  lemma CoveredAtEnds(e: Expectation)
    requires e.Acyclic()
    ensures Covered(e, [e], [])
    ensures Covered(e, [], []) ==> AncestorsSatisfied(e)
  {
    assert e in [e];
  }

  lemma PopKeepsCovered(e: Expectation, stack: seq<Expectation>)
    requires e.Acyclic() && AllAcyclic(stack) && stack != [] && Covered(e, stack, [])
    ensures AllAcyclic(stack[..|stack| - 1]) && AllAcyclic(stack[|stack| - 1].prereqs)
    ensures Covered(e, stack[..|stack| - 1], stack[|stack| - 1].prereqs)
  {
    var last := stack[|stack| - 1];
    assert last in stack;
    assert stack == stack[..|stack| - 1] + [last];
    forall a | a in last.Ancestors() ensures exists p | p in last.prereqs :: a == p || a in p.Ancestors() {
      AncestorCases(last, a);
    }
  }

  lemma PushKeepsCovered(e: Expectation, stack: seq<Expectation>, pending: seq<Expectation>)
    requires e.Acyclic() && AllAcyclic(stack) && AllAcyclic(pending) && pending != []
    requires Covered(e, stack, pending) && pending[0].IsSatisfied()
    ensures Covered(e, stack + [pending[0]], pending[1..])
  {
    assert pending == [pending[0]] + pending[1..];
  }

  // ----- the walk that reports what is missing

  /** What is reported through a prerequisite: itself if it is unsatisfied; if it is satisfied without a call, what
      is reported for it; otherwise nothing. */
  ghost function Visible(p: Expectation): set<Expectation>
    requires p.Acyclic()
    reads {p} + p.Ancestors()
    decreases p.rank, 2, 0
  {
    if !p.IsSatisfied() then {p} else if p.callCount == 0 then Frontier(p) else {}
  }

  ghost function Frontier(e: Expectation): set<Expectation>
    requires e.Acyclic()
    reads e.Ancestors()
    decreases e.rank, 1, 0
  {
    VisibleAll(e.prereqs, e.rank)
  }

  ghost function VisibleAll(ps: seq<Expectation>, bound: nat): set<Expectation>
    requires forall p | p in ps :: p.rank < bound && p.Acyclic()
    reads AncestorsOf(ps, bound)
    decreases bound, 0, |ps|
  {
    if ps == [] then {} else Visible(ps[0]) + VisibleAll(ps[1..], bound)
  }

  ghost function StackFrontier(stack: seq<Expectation>): set<Expectation>
    requires AllAcyclic(stack)
    reads set s, a | s in stack && a in s.Ancestors() :: a
  {
    if stack == [] then {} else Frontier(stack[|stack| - 1]) + StackFrontier(stack[..|stack| - 1])
  }

  lemma PopSees(stack: seq<Expectation>)
    requires AllAcyclic(stack) && stack != []
    ensures var last := stack[|stack| - 1];
            && last.Acyclic()
            && AllAcyclic(stack[..|stack| - 1])
            && StackFrontier(stack) == StackFrontier(stack[..|stack| - 1]) + VisibleAll(last.prereqs, last.rank)
    ensures StackFrontier([]) == {}
  {
    assert stack[|stack| - 1] in stack;
  }

  lemma PushSees(stack: seq<Expectation>, e: Expectation)
    requires AllAcyclic(stack) && e.Acyclic()
    ensures AllAcyclic(stack + [e]) && StackFrontier(stack + [e]) == StackFrontier(stack) + Frontier(e)
  {
    assert (stack + [e])[..|stack|] == stack;
  }

  method FindUnsatisfiedPrerequisites(self: Expectation, given: set<Expectation>) returns (result: set<Expectation>)
    requires self.Acyclic()
    ensures result == given + Frontier(self)
  {
    hide Weight, Paths, PathsOf, StackFrontier;
    result := given;
    var stack := [self];
    PushSees([], self);
    PopSees([self]);
    assert [] + [self] == stack;
    while stack != []
      invariant AllAcyclic(stack)
      invariant result + StackFrontier(stack) == given + Frontier(self)
      decreases Weight(stack)
    {
      var exp := stack[|stack| - 1];
      PopSees(stack);
      PopWeighs(stack);
      stack := stack[..|stack| - 1];
      ghost var base := Weight(stack);
      assert exp.prereqs[0..] == exp.prereqs && exp.prereqs[..0] == [];
      for k := 0 to |exp.prereqs|
        invariant AllAcyclic(stack)
        invariant Weight(stack) <= base + PathsOf(exp.prereqs[..k], exp.rank)
        invariant result + StackFrontier(stack) + VisibleAll(exp.prereqs[k..], exp.rank) == given + Frontier(self)
      {
        var next := exp.prereqs[k];
        assert exp.prereqs[k..][1..] == exp.prereqs[k + 1..];
        PathsOfStep(exp, k);
        if next.IsSatisfied() {
          if next.callCount == 0 {
            PushWeighs(stack, next);
            PushSees(stack, next);
            stack := stack + [next];
          }
        } else {
          result := result + {next};
        }
      }
      assert exp.prereqs[..|exp.prereqs|] == exp.prereqs && exp.prereqs[|exp.prereqs|..] == [];
    }
  }

  lemma {:induction false} VisibleAllMembers(ps: seq<Expectation>, bound: nat, u: Expectation)
    requires forall p | p in ps :: p.rank < bound && p.Acyclic()
    ensures u in VisibleAll(ps, bound) <==> exists p | p in ps :: u in Visible(p)
    decreases |ps|
  {
    if ps != [] {
      VisibleAllMembers(ps[1..], bound, u);
      assert forall p | p in ps :: p == ps[0] || p in ps[1..];
      assert u in Visible(ps[0]) ==> exists p | p in ps :: u in Visible(p);
      assert forall p | p in ps[1..] :: p in ps;
    }
  }

  /** Only unsatisfied ancestors are reported. */
  lemma {:induction false} ReportedIsUnsatisfied(e: Expectation, u: Expectation)
    requires e.Acyclic() && u in Frontier(e)
    ensures u in e.Ancestors() && !u.IsSatisfied()
    decreases e.rank
  {
    VisibleAllMembers(e.prereqs, e.rank, u);
    var p :| p in e.prereqs && u in Visible(p);
    PrereqsAreAncestors(e, p);
    if p.IsSatisfied() { ReportedIsUnsatisfied(p, u); }
  }

  /** A chain to an unsatisfied prerequisite through satisfied ones that have had no call. */
  ghost predicate ReportChain(e: Expectation, chain: seq<Expectation>)
    reads set c | c in chain
  {
    && IsChain(e, chain) && !chain[|chain| - 1].IsSatisfied()
    && forall i | 0 <= i < |chain| - 1 :: chain[i].IsSatisfied() && chain[i].callCount == 0
  }

  /** What is reported are exactly the ends of such chains. */
  lemma {:induction false} ReportChainIsReported(e: Expectation, chain: seq<Expectation>)
    requires e.Acyclic() && ReportChain(e, chain)
    ensures chain[|chain| - 1] in Frontier(e)
    decreases |chain|
  {
    var p, u := chain[0], chain[|chain| - 1];
    if |chain| > 1 {
      assert IsChain(p, chain[1..]);
      assert forall i | 0 <= i < |chain[1..]| - 1 :: chain[1..][i] == chain[i + 1];
      ReportChainIsReported(p, chain[1..]);
    }
    assert u in Visible(p);
    VisibleAllMembers(e.prereqs, e.rank, u);
  }

  lemma {:induction false} ReportedHasChain(e: Expectation, u: Expectation) returns (chain: seq<Expectation>)
    requires e.Acyclic() && u in Frontier(e)
    ensures ReportChain(e, chain) && chain[|chain| - 1] == u
    decreases e.rank
  {
    VisibleAllMembers(e.prereqs, e.rank, u);
    var p :| p in e.prereqs && u in Visible(p);
    if p.IsSatisfied() {
      var rest := ReportedHasChain(p, u);
      chain := [p] + rest;
    } else {
      chain := [p];
    }
  }

  /** Whoever is satisfied by calls it has had has only satisfied ancestors. */
  ghost predicate CallsWaited(e: Expectation)
    requires e.Acyclic()
    reads e.Ancestors()
  {
    forall a, b | a in e.Ancestors() && a.IsSatisfied() && a.callCount > 0 && b in a.Ancestors() && b in e.Ancestors()
      :: b.IsSatisfied()
  }

  /** If calls waited for their prerequisites, the pruned walk reports nothing exactly when nothing is missing. */
  lemma {:induction false} NothingReportedExactly(e: Expectation)
    requires e.Acyclic() && CallsWaited(e)
    ensures Frontier(e) == {} <==> AncestorsSatisfied(e)
    decreases e.rank
  {
    if Frontier(e) == {} {
      forall a | a in e.Ancestors() ensures a.IsSatisfied() {
        AncestorCases(e, a);
        var p :| p in e.prereqs && (a == p || a in p.Ancestors());
        NothingVisible(e, p);
        PrereqsAreAncestors(e, p);
        if a != p && p.callCount == 0 {
          CallsWaitedBelow(e, p);
          NothingReportedExactly(p);
          assert a.IsSatisfied();
        } else if a != p {
          assert p.callCount > 0 && p in e.Ancestors();
          assert a.IsSatisfied();
        }
      }
    } else {
      var u :| u in Frontier(e);
      ReportedIsUnsatisfied(e, u);
    }
  }

  lemma NothingVisible(e: Expectation, p: Expectation)
    requires e.Acyclic() && p in e.prereqs && Frontier(e) == {}
    ensures p.IsSatisfied() && (p.callCount == 0 ==> Frontier(p) == {})
  {
    forall u | u in Visible(p) ensures u in Frontier(e) { VisibleAllMembers(e.prereqs, e.rank, u); }
    assert !p.IsSatisfied() ==> p in Visible(p);
    assert Visible(p) == {};
  }

  lemma CallsWaitedBelow(e: Expectation, p: Expectation)
    requires e.Acyclic() && p in e.Ancestors() && CallsWaited(e)
    ensures CallsWaited(p)
  {
    AncestorsNest(e, p);
  }

  // ----- retiring

  ghost predicate AllRetired(all: set<Expectation>)
    reads all
  {
    forall e | e in all :: e.retired
  }

  ghost predicate RetiredClosed(all: set<Expectation>)
    reads all
  {
    forall e, p | e in all && p in e.prereqs && p in all && e.retired :: p.retired
  }

  ghost function Retired(all: set<Expectation>): set<Expectation>
    reads all
  {
    set e | e in all && e.retired
  }

  /** Where the retired set is not closed yet: at members of the stack, and at `busy` for its pending prerequisites. */
  ghost predicate ClosedBut(self: Expectation, retired: set<Expectation>, stack: seq<Expectation>,
                            busy: Expectation, pending: seq<Expectation>)
  {
    && (forall p | p in self.prereqs :: p in retired || self in stack || (self == busy && p in pending))
    && (forall e, p | e in retired && p in e.prereqs :: p in retired || e in stack || (e == busy && p in pending))
  }

  lemma PopKeepsClosed(self: Expectation, retired: set<Expectation>, stack: seq<Expectation>, busy: Expectation)
    requires stack != [] && ClosedBut(self, retired, stack, busy, [])
    ensures var last := stack[|stack| - 1];
            ClosedBut(self, retired, stack[..|stack| - 1], last, last.prereqs)
  {
    assert stack == stack[..|stack| - 1] + [stack[|stack| - 1]];
  }

  lemma PushKeepsClosed(self: Expectation, retired: set<Expectation>, stack: seq<Expectation>,
                        busy: Expectation, pending: seq<Expectation>)
    requires pending != [] && ClosedBut(self, retired, stack, busy, pending)
    ensures pending[0] in retired ==> ClosedBut(self, retired, stack, busy, pending[1..])
    ensures ClosedBut(self, retired + {pending[0]}, stack + [pending[0]], busy, pending[1..])
  {
    assert pending == [pending[0]] + pending[1..];
  }

  /** A set closed at `self` and at its members holds all ancestors of `self`. */
  lemma {:induction false} ClosedReachesAll(self: Expectation, retired: set<Expectation>, busy: Expectation,
                                            e: Expectation)
    requires e.Acyclic() && (e == self || e in retired) && ClosedBut(self, retired, [], busy, [])
    ensures e.Ancestors() <= retired
    decreases e.rank
  {
    forall a | a in e.Ancestors() ensures a in retired {
      AncestorCases(e, a);
      var p :| p in e.prereqs && (a == p || a in p.Ancestors());
      ClosedReachesAll(self, retired, busy, p);
    }
  }

  lemma ClosedToBeginWith(self: Expectation)
    requires self.Acyclic() && RetiredClosed(self.Ancestors() + {self})
    ensures ClosedBut(self, Retired(self.Ancestors()), [self], self, [])
    ensures self.retired ==> ClosedBut(self, Retired(self.Ancestors()), [], self, [])
  {
    var retired := Retired(self.Ancestors());
    forall e, p | (e == self || e in retired) && p in e.prereqs ensures e.retired ==> p in retired {
      AncestorsOfMember(self, e);
    }
  }

  ghost predicate Tracks(all: set<Expectation>, retired: set<Expectation>)
    reads all
  {
    retired <= all && forall a | a in all :: a.retired <==> a in retired
  }

  /** Retires every transitive prerequisite; the shortcut for a retired caller and the skipping of retired members
      lose nothing, because the retired set is closed. */
  method RetireAllPreRequisites(self: Expectation)
    requires self.Acyclic() && RetiredClosed(self.Ancestors() + {self})
    modifies self.Ancestors()`retired
    ensures AllRetired(self.Ancestors())
  {
    hide ClosedBut, RetiredClosed;
    ghost var all := self.Ancestors();
    ghost var retired := Retired(all);
    ClosedToBeginWith(self);
    if self.retired {
      ClosedReachesAll(self, retired, self, self);
      return;
    }
    var stack := [self];
    ghost var busy := self;
    while stack != []
      invariant Tracks(all, retired)
      invariant Within(self, stack)
      invariant ClosedBut(self, retired, stack, busy, [])
      decreases |all - retired|, |stack|
    {
      var exp := stack[|stack| - 1];
      ghost var before := retired;
      PopKeepsClosed(self, retired, stack, busy);
      busy := exp;
      stack := stack[..|stack| - 1];
      stack, retired := RetireImmediate(self, exp, stack, retired);
      SubsetSize(all - retired, all - before);
    }
    ClosedReachesAll(self, retired, busy, self);
  }

  /** The inner loop: retires the prerequisites of `exp` and pushes those that were not retired yet. */
  method RetireImmediate(self: Expectation, exp: Expectation, rest: seq<Expectation>, ghost before: set<Expectation>)
    returns (stack: seq<Expectation>, ghost retired: set<Expectation>)
    requires self.Acyclic() && (exp == self || exp in self.Ancestors()) && Within(self, rest)
    requires Tracks(self.Ancestors(), before) && ClosedBut(self, before, rest, exp, exp.prereqs)
    modifies self.Ancestors()`retired
    ensures Tracks(self.Ancestors(), retired) && Within(self, stack)
    ensures ClosedBut(self, retired, stack, exp, [])
    ensures before <= retired && (stack == rest || before < retired)
  {
    hide ClosedBut, RetiredClosed;
    stack, retired := rest, before;
    AncestorsOfMember(self, exp);
    assert exp.prereqs[0..] == exp.prereqs;
    for k := 0 to |exp.prereqs|
      invariant Tracks(self.Ancestors(), retired) && Within(self, stack)
      invariant ClosedBut(self, retired, stack, exp, exp.prereqs[k..])
      invariant before <= retired && (stack == rest || before < retired)
    {
      var next := exp.prereqs[k];
      assert exp.prereqs[k..][1..] == exp.prereqs[k + 1..];
      PushKeepsClosed(self, retired, stack, exp, exp.prereqs[k..]);
      if !next.retired {
        next.retired := true;
        stack := stack + [next];
        retired := retired + {next};
      }
    }
    assert exp.prereqs[|exp.prereqs|..] == [];
  }

  lemma SubsetSize(a: set<Expectation>, b: set<Expectation>)
    requires a <= b
    ensures |a| <= |b| && (a < b ==> |a| < |b|)
  {
    assert b == a + (b - a);
  }

  // ----- a mock as a value, and what calls make of it

  /** How often every expectation has been called, and which of them are retired. */
  datatype Mock = Mock(callCount: map<Expectation, nat>, retired: set<Expectation>)

  /** A call of some mock function: its expectations in the order declared, and those the arguments match. */
  datatype Call = Call(mock: seq<Expectation>, matching: set<Expectation>)

  ghost function ViewOf(all: set<Expectation>): Mock
    reads all
  {
    Mock(map e | e in all :: e.callCount, set e | e in all && e.retired)
  }

  ghost predicate SatisfiedIn(m: Mock, e: Expectation) {
    e in m.callCount && e.min <= m.callCount[e] <= e.max
  }

  ghost predicate Handles(m: Mock, e: Expectation, matching: set<Expectation>)
    requires e.Acyclic()
  {
    e !in m.retired && e in matching && forall a | a in e.Ancestors() :: SatisfiedIn(m, a)
  }

  /** The last of the expectations that handles the call. */
  ghost function HandlerOf(m: Mock, mock: seq<Expectation>, matching: set<Expectation>): (h: Expectation?)
    requires AllAcyclic(mock)
    ensures h != null ==> h in mock && Handles(m, h, matching)
  {
    if mock == [] then null
    else if Handles(m, mock[|mock| - 1], matching) then mock[|mock| - 1]
    else HandlerOf(m, mock[..|mock| - 1], matching)
  }

  ghost predicate SaturatedIn(m: Mock, e: Expectation) {
    e in m.callCount && m.callCount[e] >= e.max
  }

  /** `e` counts the call; unless it has had enough already, all its prerequisites retire, and `e` itself if it asks
      for that and has enough now. */
  ghost function Handled(m: Mock, e: Expectation): (u: Mock)
    requires e.Acyclic() && e in m.callCount
    ensures u.callCount.Keys == m.callCount.Keys
  {
    var u := m.(callCount := m.callCount[e := m.callCount[e] + 1]);
    if SaturatedIn(m, e) then u
    else u.(retired := m.retired + e.Ancestors() + if e.retiresOnSaturation && SaturatedIn(u, e) then {e} else {})
  }

  ghost predicate Known(m: Mock, mock: seq<Expectation>) {
    AllAcyclic(mock) && forall e | e in mock :: e in m.callCount
  }

  ghost function Called(m: Mock, c: Call): (u: Mock)
    requires Known(m, c.mock)
    ensures u.callCount.Keys == m.callCount.Keys
  {
    var h := HandlerOf(m, c.mock, c.matching);
    if h == null then m else Handled(m, h)
  }

  ghost predicate AllKnown(m: Mock, calls: seq<Call>) {
    forall i | 0 <= i < |calls| :: Known(m, calls[i].mock)
  }

  /** The mock after the first `n` calls. */
  ghost function After(m: Mock, calls: seq<Call>, n: nat): (u: Mock)
    requires AllKnown(m, calls) && n <= |calls|
    ensures u.callCount.Keys == m.callCount.Keys
  {
    if n == 0 then m else Called(After(m, calls, n - 1), calls[n - 1])
  }

  ghost function HandlerAt(m: Mock, calls: seq<Call>, i: nat): (h: Expectation?)
    requires AllKnown(m, calls) && i < |calls|
    ensures h != null ==> h in calls[i].mock && h.Acyclic() && h in m.callCount
    ensures h != null ==> Handles(After(m, calls, i), h, calls[i].matching)
  {
    HandlerOf(After(m, calls, i), calls[i].mock, calls[i].matching)
  }

  ghost predicate ExcessiveAt(m: Mock, calls: seq<Call>, i: nat)
    requires AllKnown(m, calls) && i < |calls|
  {
    HandlerAt(m, calls, i) != null && SaturatedIn(After(m, calls, i), HandlerAt(m, calls, i))
  }

  /** The call was handled, and its handler had not had enough before. */
  ghost predicate TakenAt(m: Mock, calls: seq<Call>, i: nat)
    requires AllKnown(m, calls) && i < |calls|
  {
    HandlerAt(m, calls, i) != null && !ExcessiveAt(m, calls, i)
  }

  lemma AfterNone(m: Mock, calls: seq<Call>)
    requires AllKnown(m, calls)
    ensures After(m, calls, 0) == m
  {
  }

  lemma AfterCall(m: Mock, calls: seq<Call>, i: nat)
    requires AllKnown(m, calls) && i < |calls|
    ensures var h, u := HandlerAt(m, calls, i), After(m, calls, i);
            After(m, calls, i + 1) == if h == null then u else Handled(u, h)
  {
  }

  lemma {:induction false} RetiredStays(m: Mock, calls: seq<Call>, i: nat, j: nat)
    requires AllKnown(m, calls) && i <= j <= |calls|
    ensures After(m, calls, i).retired <= After(m, calls, j).retired
    decreases j
  {
    hide AllKnown, After, HandlerAt;
    if i < j {
      RetiredStays(m, calls, i, j - 1);
      AfterCall(m, calls, j - 1);
    }
  }

  /** How many of the first `n` calls `e` handled. */
  ghost function CallsTo(m: Mock, calls: seq<Call>, n: nat, e: Expectation): nat
    requires AllKnown(m, calls) && n <= |calls|
  {
    if n == 0 then 0 else CallsTo(m, calls, n - 1, e) + if HandlerAt(m, calls, n - 1) == e then 1 else 0
  }

  /** Every expectation has counted the calls it handled; so a call is excessive exactly if enough were handled
      before. */
  lemma {:induction false} CountsAreCalls(m: Mock, calls: seq<Call>, n: nat, e: Expectation)
    requires AllKnown(m, calls) && n <= |calls| && e in m.callCount
    ensures After(m, calls, n).callCount[e] == m.callCount[e] + CallsTo(m, calls, n, e)
    ensures n < |calls| && HandlerAt(m, calls, n) == e ==>
              (ExcessiveAt(m, calls, n) <==> m.callCount[e] + CallsTo(m, calls, n, e) >= e.max)
    decreases n
  {
    hide AllKnown, HandlerAt, Handles;
    if n > 0 {
      CountsAreCalls(m, calls, n - 1, e);
      AfterCall(m, calls, n - 1);
    }
  }

  /** An expectation is satisfied exactly while the calls it has handled are within its bounds. */
  lemma SatisfiedByCount(m: Mock, calls: seq<Call>, n: nat, e: Expectation)
    requires AllKnown(m, calls) && n <= |calls| && e in m.callCount
    ensures SatisfiedIn(After(m, calls, n), e) <==> e.min <= m.callCount[e] + CallsTo(m, calls, n, e) <= e.max
  {
    hide AllKnown, After, HandlerAt, CallsTo;
    CountsAreCalls(m, calls, n, e);
  }

  /** At call `n`, `e` is not retired, its arguments match, and all it waits for has had the right number of calls. */
  ghost predicate CanTake(m: Mock, calls: seq<Call>, n: nat, e: Expectation)
    requires AllKnown(m, calls) && n < |calls| && e.Acyclic()
  {
    && e !in After(m, calls, n).retired && e in calls[n].matching
    && forall a | a in e.Ancestors() ::
         a in m.callCount && a.min <= m.callCount[a] + CallsTo(m, calls, n, a) <= a.max
  }

  lemma CanTakeHandles(m: Mock, calls: seq<Call>, n: nat, e: Expectation)
    requires AllKnown(m, calls) && n < |calls| && e.Acyclic()
    ensures CanTake(m, calls, n, e) <==> Handles(After(m, calls, n), e, calls[n].matching)
  {
    hide AllKnown, SatisfiedIn, After, CallsTo;
    var u := After(m, calls, n);
    forall a | a in e.Ancestors()
      ensures SatisfiedIn(u, a) <==>
              a in m.callCount && a.min <= m.callCount[a] + CallsTo(m, calls, n, a) <= a.max
    {
      assert a in u.callCount.Keys <==> a in m.callCount.Keys;
      if a in m.callCount {
        SatisfiedByCount(m, calls, n, a);
      } else {
        UnknownIsUnsatisfied(u, a);
      }
    }
    assert (forall a | a in e.Ancestors() :: SatisfiedIn(u, a)) <==>
      forall a | a in e.Ancestors() ::
        a in m.callCount && a.min <= m.callCount[a] + CallsTo(m, calls, n, a) <= a.max;
  }

  lemma UnknownIsUnsatisfied(m: Mock, e: Expectation)
    requires e !in m.callCount.Keys
    ensures !SatisfiedIn(m, e)
  {
  }

  /** The expectation that handles a call is the last declared one of its mock function that can, if any can. */
  lemma HandlerIsLast(m: Mock, calls: seq<Call>, n: nat, k: nat)
    requires AllKnown(m, calls) && n < |calls| && k < |calls[n].mock|
    ensures forall e | e in calls[n].mock :: e.Acyclic()
    ensures HandlerAt(m, calls, n) == null ==> !CanTake(m, calls, n, calls[n].mock[k])
    ensures CanTake(m, calls, n, calls[n].mock[k])
            && (forall j | k < j < |calls[n].mock| :: !CanTake(m, calls, n, calls[n].mock[j]))
            ==> HandlerAt(m, calls, n) == calls[n].mock[k]
  {
    assert Known(m, calls[n].mock);
    var u, mock, matching := After(m, calls, n), calls[n].mock, calls[n].matching;
    hide AllKnown, After, CanTake, Handles;
    forall j | 0 <= j < |mock| ensures CanTake(m, calls, n, mock[j]) <==> Handles(u, mock[j], matching) {
      CanTakeHandles(m, calls, n, mock[j]);
    }
    LastHandles(u, mock, matching, k);
  }

  lemma {:induction false} LastHandles(m: Mock, mock: seq<Expectation>, matching: set<Expectation>, k: nat)
    requires AllAcyclic(mock) && k < |mock|
    ensures HandlerOf(m, mock, matching) == null ==> !Handles(m, mock[k], matching)
    ensures Handles(m, mock[k], matching) && (forall j | k < j < |mock| :: !Handles(m, mock[j], matching))
            ==> HandlerOf(m, mock, matching) == mock[k]
    decreases |mock|
  {
    hide Handles;
    if k < |mock| - 1 { LastHandles(m, mock[..|mock| - 1], matching, k); }
  }

  /** Call `i` retires `e`: as a prerequisite of its handler, or as its handler if that has now had enough. */
  ghost predicate RetiresAt(m: Mock, calls: seq<Call>, i: nat, e: Expectation)
    requires AllKnown(m, calls) && i < |calls|
  {
    && TakenAt(m, calls, i)
    && var h := HandlerAt(m, calls, i);
       e in h.Ancestors() || (e == h && h.retiresOnSaturation && SaturatedIn(After(m, calls, i + 1), h))
  }

  /** Nothing else ever retires an expectation. */
  lemma {:induction false} RetiredByCalls(m: Mock, calls: seq<Call>, n: nat, e: Expectation)
    requires AllKnown(m, calls) && n <= |calls|
    ensures e in After(m, calls, n).retired <==>
            e in m.retired || exists i | 0 <= i < n :: RetiresAt(m, calls, i, e)
    decreases n
  {
    hide AllKnown, HandlerAt, RetiresAt, Handles;
    if n > 0 {
      RetiredByCalls(m, calls, n - 1, e);
      OneCallRetires(m, calls, n - 1, e);
      if i: nat :| i < n && RetiresAt(m, calls, i, e) {
        assert i < n - 1 || i == n - 1;
      }
    }
  }

  lemma OneCallRetires(m: Mock, calls: seq<Call>, i: nat, e: Expectation)
    requires AllKnown(m, calls) && i < |calls|
    ensures e in After(m, calls, i + 1).retired <==> e in After(m, calls, i).retired || RetiresAt(m, calls, i, e)
  {
    hide AllKnown, HandlerAt, After, Handles;
    AfterCall(m, calls, i);
  }

  /** Once a call that is not excessive was handled, none of its handler's prerequisites handles a call any more. */
  lemma NoPrerequisiteAgain(m: Mock, calls: seq<Call>, i: nat, j: nat)
    requires AllKnown(m, calls) && i < j < |calls| && TakenAt(m, calls, i)
    ensures HandlerAt(m, calls, j) !in HandlerAt(m, calls, i).Ancestors()
  {
    hide AllKnown, After;
    AfterCall(m, calls, i);
    RetiredStays(m, calls, i + 1, j);
  }

  /** All of them had been satisfied by then, and stay so whatever calls follow. */
  lemma {:induction false} PrerequisitesStayMet(m: Mock, calls: seq<Call>, i: nat, j: nat, a: Expectation)
    requires AllKnown(m, calls) && i < |calls| && i <= j <= |calls| && TakenAt(m, calls, i)
    requires a in HandlerAt(m, calls, i).Ancestors()
    ensures SatisfiedIn(After(m, calls, j), a)
    decreases j
  {
    hide AllKnown, After, HandlerAt, ExcessiveAt;
    if i < j {
      PrerequisitesStayMet(m, calls, i, j - 1, a);
      AfterCall(m, calls, j - 1);
      if i < j - 1 { NoPrerequisiteAgain(m, calls, i, j - 1); }
    }
  }

  // ----- handling calls

  /** `all` holds every expectation there is. */
  ghost predicate Declared(all: set<Expectation>) {
    forall e | e in all :: e.Acyclic() && e.Ancestors() <= all
  }

  /** A call that was not excessive found its prerequisites satisfied and retired them for good. */
  ghost predicate Waited(e: Expectation)
    requires e.Acyclic()
    reads e, e.Ancestors()
  {
    e.callCount > 0 && e.max > 0 ==> AncestorsSatisfied(e) && AllRetired(e.Ancestors())
  }

  /** What every call keeps. */
  ghost predicate Sound(all: set<Expectation>)
    requires Declared(all)
    reads all
  {
    RetiredClosed(all) && AllWaited(all)
  }

  ghost predicate AllWaited(all: set<Expectation>)
    requires Declared(all)
    reads all
  {
    forall e | e in all :: Waited(e)
  }

  /** In every state that calls can lead to, the pruned walk reports nothing exactly when nothing is missing. */
  lemma ReportIsExact(all: set<Expectation>, e: Expectation)
    requires Declared(all) && Sound(all) && e in all
    ensures Frontier(e) == {} <==> AncestorsSatisfied(e)
  {
    assert CallsWaited(e) by {
      forall a | a in e.Ancestors() && a.IsSatisfied() && a.callCount > 0 ensures AncestorsSatisfied(a) {
        assert Waited(a);
      }
    }
    NothingReportedExactly(e);
  }

  /** What handling a call does to the state: `e` counts it, and unless the call is excessive all prerequisites of
      `e` are retired, and `e` itself if it asks for that and has now had enough. */
  method GetActionForArguments(e: Expectation) returns (excessive: bool)
    requires e.Acyclic() && RetiredClosed(e.Ancestors() + {e})
    modifies e`callCount, e`retired, e.Ancestors()`retired
    ensures excessive == old(e.IsSaturated()) && e.callCount == old(e.callCount) + 1
    ensures excessive ==> e.retired == old(e.retired)
    ensures excessive ==> forall a | a in e.Ancestors() :: a.retired == old(a.retired)
    ensures !excessive ==> AllRetired(e.Ancestors())
    ensures !excessive ==> e.retired == (old(e.retired) || (e.retiresOnSaturation && e.IsSaturated()))
  {
    if e.IsSaturated() {
      e.callCount := e.callCount + 1;
      return true;
    }
    e.callCount := e.callCount + 1;
    RetireAllPreRequisites(e);
    if e.retiresOnSaturation && e.IsSaturated() {
      e.retired := true;
    }
    return false;
  }

  lemma DeclaredParts(all: set<Expectation>)
    requires Declared(all)
    ensures forall e | e in all :: e.Acyclic() && e.Ancestors() <= all
  {
  }

  lemma HandledView(all: set<Expectation>, e: Expectation, before: Mock)
    requires Declared(all) && e in all && before.callCount.Keys == all && before.retired <= all
    requires forall x | x in all :: x.callCount == before.callCount[x] + if x == e then 1 else 0
    requires forall x | x in all && x != e && x !in e.Ancestors() :: x.retired <==> x in before.retired
    requires SaturatedIn(before, e) ==> forall x | x in all :: x.retired <==> x in before.retired
    requires !SaturatedIn(before, e) ==> AllRetired(e.Ancestors())
    requires !SaturatedIn(before, e) ==>
               (e.retired <==> e in before.retired || (e.retiresOnSaturation && e.IsSaturated()))
    ensures ViewOf(all) == Handled(before, e)
  {
    hide Declared, AllRetired;
    ViewCounts(all, e, before);
    ViewRetired(all, e, before.retired, SaturatedIn(before, e), e.retiresOnSaturation && e.IsSaturated());
  }

  lemma ViewCounts(all: set<Expectation>, e: Expectation, before: Mock)
    requires e in all && before.callCount.Keys == all
    requires forall x | x in all :: x.callCount == before.callCount[x] + if x == e then 1 else 0
    ensures ViewOf(all).callCount == before.callCount[e := before.callCount[e] + 1]
    ensures e.IsSaturated() <==> before.callCount[e] + 1 >= e.max
  {
  }

  lemma ViewRetired(all: set<Expectation>, e: Expectation, before: set<Expectation>, excessive: bool, last: bool)
    requires Declared(all) && e in all && before <= all
    requires forall x | x in all && x != e && x !in e.Ancestors() :: x.retired <==> x in before
    requires if excessive then forall x | x in all :: x.retired <==> x in before
             else AllRetired(e.Ancestors()) && (e.retired <==> e in before || last)
    ensures ViewOf(all).retired == if excessive then before else before + e.Ancestors() + if last then {e} else {}
  {
    DeclaredParts(all);
    hide Declared;
    assert e !in e.Ancestors();
    var after := if excessive then before else before + e.Ancestors() + if last then {e} else {};
    forall x ensures x in ViewOf(all).retired <==> x in after {}
  }

  /** Any call an active expectation with satisfied prerequisites handles keeps the state sound. */
  method HandleCall(e: Expectation, ghost all: set<Expectation>) returns (excessive: bool)
    requires Declared(all) && Sound(all) && e in all
    requires !e.retired && AncestorsSatisfied(e)
    modifies e`callCount, e`retired, e.Ancestors()`retired
    ensures Sound(all) && ViewOf(all) == Handled(old(ViewOf(all)), e)
    ensures excessive == old(e.IsSaturated()) && e.callCount == old(e.callCount) + 1
    ensures excessive ==> forall x | x in all :: x.retired == old(x.retired)
    ensures !excessive ==> AllRetired(e.Ancestors())
    ensures !excessive ==> e.retired == (e.retiresOnSaturation && e.IsSaturated())
    ensures forall x | x in all && old(x.retired) :: x.retired
  {
    ClosedBelow(all, e);
    DeclaredParts(all);
    ghost var before := ViewOf(all);
    excessive := GetActionForArguments(e);
    forall x, p | x in all && p in x.prereqs && p in all && x.retired ensures p.retired {
      PrereqsAreAncestors(x, p);
      if x == e || x in e.Ancestors() {
        AncestorsOfMember(e, x);
      }
    }
    assert RetiredClosed(all);
    forall x | x in all ensures Waited(x) {
      assert old(Waited(x));
      if x == e {
        assert e !in e.Ancestors();
      } else if x.callCount > 0 && x.max > 0 {
        assert e !in x.Ancestors();
      }
    }
    HandledView(all, e, before);
  }

  lemma ClosedBelow(all: set<Expectation>, e: Expectation)
    requires Declared(all) && Sound(all) && e in all
    ensures RetiredClosed(e.Ancestors() + {e})
  {
  }

  ghost predicate ShouldHandle(e: Expectation, matching: set<Expectation>)
    requires e.Acyclic()
    reads e, e.Ancestors()
  {
    !e.retired && AncestorsSatisfied(e) && e in matching
  }

  lemma HandlesInView(all: set<Expectation>, e: Expectation, matching: set<Expectation>)
    requires Declared(all) && e in all
    ensures ShouldHandle(e, matching) <==> Handles(ViewOf(all), e, matching)
  {
    assert e.Ancestors() <= all;
  }

  /** The expectation declared last among those that should handle a call whose arguments match `matching`. */
  method FindMatchingExpectation(ghost all: set<Expectation>, mock: seq<Expectation>, matching: set<Expectation>)
    returns (found: Expectation?)
    requires Declared(all) && forall e | e in mock :: e in all
    ensures found == null ==> forall e | e in mock :: !ShouldHandle(e, matching)
    ensures found != null ==> exists i | 0 <= i < |mock| ::
      && mock[i] == found && ShouldHandle(mock[i], matching)
      && forall j | i < j < |mock| :: !ShouldHandle(mock[j], matching)
    ensures AllAcyclic(mock) && found == HandlerOf(ViewOf(all), mock, matching)
  {
    hide AncestorsSatisfied, Handles;
    DeclaredParts(all);
    assert mock[..|mock|] == mock;
    for i := |mock| downto 0
      invariant forall j | i <= j < |mock| :: !ShouldHandle(mock[j], matching)
      invariant HandlerOf(ViewOf(all), mock, matching) == HandlerOf(ViewOf(all), mock[..i], matching)
    {
      HandlesInView(all, mock[i], matching);
      assert mock[..i + 1][..i] == mock[..i];
      var satisfied := AllPrerequisitesAreSatisfied(mock[i]);
      if !mock[i].retired && satisfied && mock[i] in matching {
        return mock[i];
      }
    }
    return null;
  }

  /** A run of calls: its handlers, which calls were excessive, and the state it leaves are those of the run of the
      mock as a value; so no prerequisite of a handler handles a call again. */
  method Replay(ghost all: set<Expectation>, calls: seq<Call>) returns (handlers: seq<Expectation?>, excess: seq<bool>)
    requires Declared(all) && Sound(all)
    requires AllKnown(ViewOf(all), calls)
    modifies all
    ensures Sound(all) && ViewOf(all) == After(old(ViewOf(all)), calls, |calls|)
    ensures |handlers| == |excess| == |calls|
    ensures forall i | 0 <= i < |calls| ::
      && handlers[i] == HandlerAt(old(ViewOf(all)), calls, i)
      && (excess[i] <==> ExcessiveAt(old(ViewOf(all)), calls, i))
      && (handlers[i] != null ==> handlers[i] in calls[i].mock)
    ensures forall i, j | 0 <= i < j < |calls| && handlers[i] != null && !excess[i] && handlers[i] in all ::
      handlers[j] !in handlers[i].Ancestors()
  {
    hide Sound, AncestorsSatisfied, RetiredClosed, Waited, After, HandlerOf, Handled;
    ghost var m := ViewOf(all);
    handlers, excess := [], [];
    DeclaredParts(all);
    AfterNone(m, calls);
    for n := 0 to |calls|
      invariant Sound(all) && |handlers| == |excess| == n
      invariant ViewOf(all) == After(m, calls, n)
      invariant forall i | 0 <= i < n ::
        handlers[i] == HandlerAt(m, calls, i) && (excess[i] <==> ExcessiveAt(m, calls, i))
    {
      assert Known(ViewOf(all), calls[n].mock);
      var handler := FindMatchingExpectation(all, calls[n].mock, calls[n].matching);
      AfterCall(m, calls, n);
      var excessive := false;
      if handler != null {
        excessive := HandleCall(handler, all);
      }
      handlers, excess := handlers + [handler], excess + [excessive];
    }
    forall i, j | 0 <= i < j < |calls| && handlers[i] != null && !excess[i] && handlers[i] in all
      ensures handlers[j] !in handlers[i].Ancestors()
    {
      NoPrerequisiteAgain(m, calls, i, j);
    }
  }

  /** Before the first call. */
  lemma StartsSound(all: set<Expectation>)
    requires Declared(all) && forall e | e in all :: e.callCount == 0 && !e.retired
    ensures Sound(all)
  {
  }
}
