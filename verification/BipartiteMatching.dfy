/** Maximum bipartite matching between elements (left) and matchers (right), and the decision built on it. */
module BipartiteMatching {

  /** A match matrix read as a graph: `rows[l][r]` says whether element `l` matches matcher `r`. */
  datatype Graph = Graph(lhs: nat, rhs: nat, rows: seq<seq<bool>>) {
    ghost predicate Valid() {
      |rows| == lhs && forall l | 0 <= l < lhs :: |rows[l]| == rhs
    }

    predicate HasEdge(l: nat, r: nat)
      requires Valid() && l < lhs && r < rhs
    {
      rows[l][r]
    }
  }

  const UNUSED: int := -1

  type Pair = (nat, nat)

  ghost predicate IsEdge(g: Graph, l: int, r: int)
    requires g.Valid()
  {
    0 <= l < g.lhs && 0 <= r < g.rhs && g.HasEdge(l, r)
  }

  /** A set of graph edges no two of which share an end. */
  ghost predicate IsMatching(g: Graph, m: seq<Pair>)
    requires g.Valid()
  {
    && (forall i | 0 <= i < |m| :: IsEdge(g, m[i].0, m[i].1))
    && (forall i, j | 0 <= i < j < |m| :: m[i].0 != m[j].0 && m[i].1 != m[j].1)
  }

  ghost predicate IsMaximum(g: Graph, m: seq<Pair>)
    requires g.Valid()
  {
    IsMatching(g, m) && forall other: seq<Pair> | IsMatching(g, other) :: |other| <= |m|
  }

  // ----- the state of the search

  ghost predicate Shape(g: Graph, left: seq<int>, right: seq<int>) {
    && |left| == g.lhs && |right| == g.rhs
    && (forall l | 0 <= l < g.lhs :: left[l] == UNUSED || 0 <= left[l] < g.rhs)
    && (forall r | 0 <= r < g.rhs :: right[r] == UNUSED || 0 <= right[r] < g.lhs)
  }

  /** Every used left node sits on an edge and its partner refers back. */
  ghost predicate LeftRefers(g: Graph, left: seq<int>, right: seq<int>)
    requires g.Valid() && Shape(g, left, right)
  {
    forall l | 0 <= l < g.lhs && left[l] != UNUSED :: IsEdge(g, l, left[l]) && right[left[l]] == l
  }

  /** Every used right node except `stale` has a partner that refers back. */
  ghost predicate RightRefers(g: Graph, left: seq<int>, right: seq<int>, stale: int)
    requires g.Valid() && Shape(g, left, right)
  {
    forall r | 0 <= r < g.rhs && right[r] != UNUSED && r != stale :: left[right[r]] == r
  }

  ghost predicate MutuallyReferent(g: Graph, left: seq<int>, right: seq<int>) {
    g.Valid() && Shape(g, left, right) && LeftRefers(g, left, right) && RightRefers(g, left, right, UNUSED)
  }

  /** A closed set of right nodes no search can leave: all of them are matched, and whoever is matched
      into the set has all its edges in it. */
  ghost predicate Closed(g: Graph, left: seq<int>, right: seq<int>, dead: set<int>)
    requires g.Valid() && Shape(g, left, right)
  {
    && (forall r | r in dead :: 0 <= r < g.rhs && right[r] != UNUSED)
    && (forall l, r | 0 <= l < g.lhs && left[l] in dead && IsEdge(g, l, r) :: r in dead)
  }

  /** What a failed search from `l` has found: it has seen all of `l`'s edges, and every node it has newly seen
      is matched to a left node whose edges it has all seen too. */
  ghost predicate Exhausted(g: Graph, right: seq<int>, before: seq<bool>, seen: seq<bool>)
    requires g.Valid() && |right| == |before| == |seen| == g.rhs
  {
    forall r | 0 <= r < g.rhs && seen[r] && !before[r] ::
      0 <= right[r] < g.lhs && AllSeen(g, right[r], seen, g.rhs)
  }

  ghost predicate AllSeen(g: Graph, l: int, seen: seq<bool>, upTo: nat)
    requires g.Valid() && |seen| == g.rhs && upTo <= g.rhs
  {
    forall r | 0 <= r < upTo && IsEdge(g, l, r) :: seen[r]
  }

  ghost predicate Grown(before: seq<bool>, seen: seq<bool>) {
    |seen| == |before| && forall r | 0 <= r < |before| && before[r] :: seen[r]
  }

  /** What a successful search from `l` has done: exactly `l` joins the used left nodes, nothing seen before it
      is touched, and only `l`'s former partner is left referring to it. */
  ghost predicate Augmented(g: Graph, l: int, before: seq<bool>, dead: set<int>,
                            left: seq<int>, right: seq<int>, left': seq<int>, right': seq<int>)
    requires g.Valid() && |before| == g.rhs && 0 <= l < g.lhs && Shape(g, left, right)
  {
    && Shape(g, left', right')
    && LeftRefers(g, left', right')
    && RightRefers(g, left', right', left[l])
    && left'[l] != UNUSED && !before[left'[l]] && left'[l] !in dead
    && (forall r | 0 <= r < g.rhs && before[r] :: right'[r] == right[r])
    && (forall r | 0 <= r < g.rhs && right[r] != UNUSED :: right'[r] != UNUSED)
    && (forall x | 0 <= x < g.lhs && x != l ::
          (left'[x] == UNUSED <==> left[x] == UNUSED)
          && (left'[x] != left[x] ==> left'[x] !in dead && !before[left[x]]))
  }

  /** Making the last link of the path, after the rest of it has been flipped from `next` on. */
  lemma LinkAfter(g: Graph, l: int, r: int, before: seq<bool>, marked: seq<bool>, dead: set<int>,
                  left: seq<int>, right: seq<int>, left': seq<int>, right': seq<int>)
    requires MutuallyReferent(g, left, right) && Closed(g, left, right, dead)
    requires |before| == |marked| == g.rhs && IsEdge(g, l, r) && !before[r]
    requires Grown(before, marked) && marked[r]
    requires left[l] == UNUSED || before[left[l]]
    requires right[r] != UNUSED && Augmented(g, right[r], marked, dead, left, right, left', right')
    ensures Augmented(g, l, before, dead, left, right, left'[l := r], right'[r := l])
  {
    var next := right[r];
    assert left[next] == r;
    assert IsEdge(g, next, left'[next]);
    assert left'[next] in dead || r !in dead;
    assert next != l;
    assert left'[l] == left[l];
    forall x | 0 <= x < g.lhs && x != l && left'[x] != UNUSED
      ensures left'[x] != r
    {
      assert right'[left'[x]] == x;
    }
  }

  lemma LinkFree(g: Graph, l: int, r: int, before: seq<bool>, dead: set<int>, left: seq<int>, right: seq<int>)
    requires MutuallyReferent(g, left, right) && Closed(g, left, right, dead)
    requires |before| == g.rhs && IsEdge(g, l, r) && !before[r] && right[r] == UNUSED
    ensures Augmented(g, l, before, dead, left, right, left[l := r], right[r := l])
  {
    forall x | 0 <= x < g.lhs && left[x] != UNUSED ensures left[x] != r {
      assert right[left[x]] == x;
    }
  }

  lemma ExhaustedJoins(g: Graph, right: seq<int>, before: seq<bool>, seen: seq<bool>, r: nat, after: seq<bool>)
    requires g.Valid() && |right| == |before| == |seen| == g.rhs && r < g.rhs
    requires Grown(before, seen) && Exhausted(g, right, before, seen)
    requires Grown(seen[r := true], after) && Exhausted(g, right, seen[r := true], after)
    requires 0 <= right[r] < g.lhs && AllSeen(g, right[r], after, g.rhs)
    ensures Grown(before, after) && Exhausted(g, right, before, after)
  {
    assert Grown(seen, after) by {
      forall q | 0 <= q < |seen| && seen[q] ensures after[q] {
        assert seen[r := true][q];
      }
    }
    forall q | 0 <= q < g.rhs && after[q] && !before[q]
      ensures 0 <= right[q] < g.lhs && AllSeen(g, right[q], after, g.rhs)
    {
      if q != r && seen[q] {
        assert AllSeen(g, right[q], seen, g.rhs);
      } else if q != r {
        assert !seen[r := true][q];
      }
    }
  }

  ghost function Unseen(seen: seq<bool>): set<int> {
    set r: int | 0 <= r < |seen| && !seen[r]
  }

  lemma UnseenShrinks(before: seq<bool>, seen: seq<bool>, r: nat)
    requires Grown(before, seen) && r < |before| && !before[r] && seen[r]
    ensures Unseen(seen) < Unseen(before)
  {
    assert r in Unseen(before) && r !in Unseen(seen);
    forall q | q in Unseen(seen) ensures q in Unseen(before) {}
  }

  /** All edges of the unmatched left nodes below `upTo` lead into `dead`. */
  ghost predicate Abandoned(g: Graph, left: seq<int>, dead: set<int>, upTo: nat)
    requires g.Valid() && |left| == g.lhs && upTo <= g.lhs
  {
    forall l, r | 0 <= l < upTo && left[l] == UNUSED && IsEdge(g, l, r) :: r in dead
  }

  ghost function SeenSet(seen: seq<bool>): set<int> {
    set r: int | 0 <= r < |seen| && seen[r]
  }

  /** The state of the outer loop after the left nodes below `upTo` were searched from. */
  ghost predicate Searched(g: Graph, left: seq<int>, right: seq<int>, dead: set<int>, upTo: nat) {
    && MutuallyReferent(g, left, right)
    && Closed(g, left, right, dead)
    && upTo <= g.lhs
    && Abandoned(g, left, dead, upTo)
    && (forall l | upTo <= l < g.lhs :: left[l] == UNUSED)
  }

  lemma SearchedParts(g: Graph, left: seq<int>, right: seq<int>, dead: set<int>, upTo: nat)
    requires Searched(g, left, right, dead, upTo)
    ensures upTo <= g.lhs && |left| == g.lhs && |right| == g.rhs
    ensures g.Valid() && Shape(g, left, right) && MutuallyReferent(g, left, right) && Closed(g, left, right, dead)
    ensures upTo < g.lhs ==> left[upTo] == UNUSED
    ensures forall l | 0 <= l < g.lhs :: left[l] >= UNUSED
  {
  }

  lemma NothingSearched(g: Graph, left: seq<int>, right: seq<int>)
    requires g.Valid() && AllUnused(g.lhs, left) && AllUnused(g.rhs, right)
    ensures Searched(g, left, right, {}, 0)
  {
  }

  lemma NothingListed(left: seq<int>)
    ensures Lists(left, 0, [])
  {
    assert left[..0] == [];
  }

  lemma ListsInOrder(left: seq<int>, upTo: nat, result: seq<Pair>)
    requires upTo <= |left| && Lists(left, upTo, result)
    ensures forall i, j | 0 <= i < j < |result| :: result[i].0 < result[j].0
  {
  }

  lemma FailureGrowsDead(g: Graph, l: nat, left: seq<int>, right: seq<int>, before: seq<bool>, seen: seq<bool>,
                         dead: set<int>)
    requires Searched(g, left, right, dead, l) && l < g.lhs
    requires |before| == g.rhs && (forall r | 0 <= r < g.rhs :: !before[r]) && |seen| == g.rhs
    requires Exhausted(g, right, before, seen) && AllSeen(g, l, seen, g.rhs)
    ensures Searched(g, left, right, dead + SeenSet(seen), l + 1)
  {
    forall x, r | 0 <= x < g.lhs && left[x] in dead + SeenSet(seen) && IsEdge(g, x, r)
      ensures r in dead + SeenSet(seen)
    {
      if left[x] !in dead {
        assert right[left[x]] == x;
        assert AllSeen(g, x, seen, g.rhs);
      }
    }
  }

  lemma SuccessKeepsDead(g: Graph, l: nat, before: seq<bool>, dead: set<int>,
                         left: seq<int>, right: seq<int>, left': seq<int>, right': seq<int>)
    requires Searched(g, left, right, dead, l) && l < g.lhs && |before| == g.rhs
    requires Augmented(g, l, before, dead, left, right, left', right')
    ensures Searched(g, left', right', dead, l + 1)
  {
    forall x, r | 0 <= x < g.lhs && left'[x] in dead && IsEdge(g, x, r) ensures r in dead {
      assert left'[x] == left[x];
    }
  }

  // ----- weak duality: the closed set certifies that the matching is maximum

  lemma DistinctFit(s: seq<int>, room: set<int>)
    requires forall i, j | 0 <= i < j < |s| :: s[i] != s[j]
    requires forall i | 0 <= i < |s| :: s[i] in room
    ensures |s| <= |room|
  {
    if s != [] {
      DistinctFit(s[1..], room - {s[0]});
    }
  }

  ghost function Used(left: seq<int>): set<int> {
    set l: int | 0 <= l < |left| && left[l] != UNUSED
  }

  /** The used left node a pair of any other matching is charged to. */
  ghost function Charge(right: seq<int>, dead: set<int>, p: Pair): int
    requires p.1 < |right|
  {
    if p.1 in dead then right[p.1] else p.0
  }

  lemma NoLargerMatching(g: Graph, left: seq<int>, right: seq<int>, dead: set<int>, other: seq<Pair>)
    requires Searched(g, left, right, dead, g.lhs) && IsMatching(g, other)
    ensures |other| <= |Used(left)|
  {
    var charged := seq(|other|, i requires 0 <= i < |other| => Charge(right, dead, other[i]));
    forall i | 0 <= i < |other| ensures charged[i] in Used(left) {
      assert IsEdge(g, other[i].0, other[i].1);
    }
    forall i, j | 0 <= i < j < |other| ensures charged[i] != charged[j] {
      assert IsEdge(g, other[i].0, other[i].1) && IsEdge(g, other[j].0, other[j].1);
      assert other[i].1 in dead ==> left[right[other[i].1]] == other[i].1;
      assert other[j].1 in dead ==> left[right[other[j].1]] == other[j].1;
    }
    DistinctFit(charged, Used(left));
  }

  /** The pairs the used left nodes below `upTo` stand for, in order of the left node. */
  ghost predicate Lists(left: seq<int>, upTo: nat, result: seq<Pair>)
    requires upTo <= |left|
  {
    && (forall i | 0 <= i < |result| :: result[i].0 < upTo && left[result[i].0] == result[i].1)
    && (forall i, j | 0 <= i < j < |result| :: result[i].0 < result[j].0)
    && |result| == |Used(left[..upTo])|
  }

  lemma ListsStep(left: seq<int>, upTo: nat, result: seq<Pair>)
    requires upTo < |left| && left[upTo] >= UNUSED && Lists(left, upTo, result)
    ensures Lists(left, upTo + 1, if left[upTo] == UNUSED then result else result + [(upTo, left[upTo])])
  {
    assert left[..upTo + 1] == left[..upTo] + [left[upTo]];
    if left[upTo] == UNUSED {
      assert Used(left[..upTo + 1]) == Used(left[..upTo]);
    } else {
      assert Used(left[..upTo + 1]) == Used(left[..upTo]) + {upTo};
    }
  }

  lemma ListedIsMatching(g: Graph, left: seq<int>, right: seq<int>, result: seq<Pair>)
    requires MutuallyReferent(g, left, right) && Lists(left, g.lhs, result)
    ensures IsMatching(g, result)
  {
    forall i | 0 <= i < |result| ensures IsEdge(g, result[i].0, result[i].1) {
      assert left[result[i].0] == result[i].1;
    }
    forall i, j | 0 <= i < j < |result| ensures result[i].1 != result[j].1 {
      assert right[left[result[i].0]] == result[i].0;
      assert right[left[result[j].0]] == result[j].0;
    }
  }

  lemma ListedIsMaximum(g: Graph, left: seq<int>, right: seq<int>, dead: set<int>, result: seq<Pair>)
    requires Searched(g, left, right, dead, g.lhs)
    requires Lists(left, g.lhs, result)
    ensures IsMaximum(g, result)
  {
    ListedIsMatching(g, left, right, result);
    assert left[..g.lhs] == left;
    forall other: seq<Pair> | IsMatching(g, other) ensures |other| <= |result| {
      NoLargerMatching(g, left, right, dead, other);
    }
  }

  ghost predicate AllUnused(n: nat, side: seq<int>) {
    |side| == n && forall i | 0 <= i < n :: side[i] == UNUSED
  }

  /** The search state: `left[l]` is the right node `l` sends its flow to, `right[r]` the left node feeding `r`. */
  class MaxBipartiteMatchState {
    const graph: Graph
    const left: array<int>
    const right: array<int>

    constructor (g: Graph)
      requires g.Valid()
      ensures graph == g && fresh(left) && fresh(right) && left != right
      ensures AllUnused(g.lhs, left[..]) && AllUnused(g.rhs, right[..])
    {
      graph := g;
      left := new int[g.lhs](_ => UNUSED);
      right := new int[g.rhs](_ => UNUSED);
    }

    /** Searches for a free right node depth first from `l`, marking right nodes in `seen`. `dead` is any closed
        set; a successful search never touches it. */
    method TryAugment(l: nat, seen: array<bool>, ghost dead: set<int>) returns (ok: bool)
      requires left != right && MutuallyReferent(graph, left[..], right[..])
      requires l < graph.lhs && seen.Length == graph.rhs
      requires left[l] == UNUSED || seen[left[l]]
      requires Closed(graph, left[..], right[..], dead)
      modifies left, right, seen
      ensures Grown(old(seen[..]), seen[..])
      ensures !ok ==> left[..] == old(left[..]) && right[..] == old(right[..])
      ensures !ok ==> AllSeen(graph, l, seen[..], graph.rhs)
      ensures !ok ==> Exhausted(graph, right[..], old(seen[..]), seen[..])
      ensures ok ==> Augmented(graph, l, old(seen[..]), dead, old(left[..]), old(right[..]), left[..], right[..])
      decreases Unseen(seen[..])
    {
      ghost var left0, right0, before := left[..], right[..], seen[..];
      for r := 0 to graph.rhs
        invariant left[..] == left0 && right[..] == right0
        invariant Grown(before, seen[..]) && Exhausted(graph, right0, before, seen[..])
        invariant AllSeen(graph, l, seen[..], r)
      {
        if !seen[r] && graph.HasEdge(l, r) {
          ghost var marked := seen[..][r := true];
          ghost var unmarked := seen[..];
          seen[r] := true;
          assert seen[..] == marked;
          UnseenShrinks(before, marked, r);
          var found := right[r] == UNUSED;
          if found {
            LinkFree(graph, l, r, before, dead, left0, right0);
          } else {
            found := TryAugment(right[r], seen, dead);
            if found {
              LinkAfter(graph, l, r, before, marked, dead, left0, right0, left[..], right[..]);
            } else {
              ExhaustedJoins(graph, right0, before, unmarked, r, seen[..]);
            }
          }
          if found {
            ghost var left1, right1 := left[..], right[..];
            left[l] := r;
            right[r] := l;
            assert left[..] == left1[l := r] && right[..] == right1[r := l];
            return true;
          }
        }
      }
      return false;
    }

    /** The pairs of a maximum matching: visiting every left node once is enough. */
    method Compute() returns (result: seq<Pair>)
      requires graph.Valid() && left != right
      requires AllUnused(graph.lhs, left[..]) && AllUnused(graph.rhs, right[..])
      modifies left, right
      ensures IsMaximum(graph, result)
      ensures forall i, j | 0 <= i < j < |result| :: result[i].0 < result[j].0
    {
      hide Searched, MutuallyReferent, Shape, Closed, Augmented, AllSeen, Exhausted, IsMaximum, Lists, AllUnused;
      ghost var dead: set<int> := {};
      NothingSearched(graph, left[..], right[..]);
      SearchedParts(graph, left[..], right[..], dead, 0);
      for l := 0 to graph.lhs
        invariant Searched(graph, left[..], right[..], dead, l)
      {
        SearchedParts(graph, left[..], right[..], dead, l);
        assert left[l] == UNUSED;
        var seen := new bool[graph.rhs](_ => false);
        ghost var left0, right0, before := left[..], right[..], seen[..];
        var ok := TryAugment(l, seen, dead);
        if ok {
          SuccessKeepsDead(graph, l, before, dead, left0, right0, left[..], right[..]);
        } else {
          FailureGrowsDead(graph, l, left0, right0, before, seen[..], dead);
          dead := dead + SeenSet(seen[..]);
        }
      }
      ghost var left1, right1 := left[..], right[..];
      SearchedParts(graph, left1, right1, dead, graph.lhs);
      NothingListed(left1);
      result := [];
      for l := 0 to graph.lhs
        invariant left[..] == left1
        invariant Lists(left1, l, result)
      {
        ListsStep(left1, l, result);
        if left[l] != UNUSED {
          result := result + [(l, left[l])];
        }
      }
      ListsInOrder(left1, graph.lhs, result);
      ListedIsMaximum(graph, left1, right1, dead, result);
    }
  }

  method FindMaxBipartiteMatching(g: Graph) returns (result: seq<Pair>)
    requires g.Valid()
    ensures IsMaximum(g, result)
  {
    var state := new MaxBipartiteMatchState(g);
    result := state.Compute();
  }

  // ----- the decision: can the required sides be paired off completely?

  datatype Require = Superset | Subset | ExactMatch {
    predicate Matchers() { this != Subset }
    predicate Elements() { this != Superset }
  }

  ghost predicate HasElement(m: seq<Pair>, l: nat) {
    exists i :: 0 <= i < |m| && m[i].0 == l
  }

  ghost predicate HasMatcher(m: seq<Pair>, r: nat) {
    exists i :: 0 <= i < |m| && m[i].1 == r
  }

  ghost predicate CoversElements(g: Graph, m: seq<Pair>) {
    forall l: nat | l < g.lhs :: HasElement(m, l)
  }

  ghost predicate CoversMatchers(g: Graph, m: seq<Pair>) {
    forall r: nat | r < g.rhs :: HasMatcher(m, r)
  }

  /** A pairing that leaves nobody out on the sides the requirement names. */
  ghost predicate Saturating(require: Require, g: Graph, m: seq<Pair>)
    requires g.Valid()
  {
    && IsMatching(g, m)
    && (require.Matchers() ==> CoversMatchers(g, m))
    && (require.Elements() ==> CoversElements(g, m))
  }

  /** A superset has a partner for every matcher, a subset for every element, and an exact match for both. */
  lemma RequirementMeans(g: Graph, m: seq<Pair>)
    requires g.Valid()
    ensures Saturating(Superset, g, m) <==> IsMatching(g, m) && CoversMatchers(g, m)
    ensures Saturating(Subset, g, m) <==> IsMatching(g, m) && CoversElements(g, m)
    ensures Saturating(ExactMatch, g, m) <==> IsMatching(g, m) && |m| == g.lhs == g.rhs
  {
    if IsMatching(g, m) { CoverBySize(g, m); }
  }

  function Range(n: nat): (s: set<int>)
    ensures |s| == n
    ensures forall i :: i in s <==> 0 <= i < n
  {
    if n == 0 then {} else Range(n - 1) + {n - 1}
  }

  /** Distinct numbers below `n` are at most `n`, and exactly `n` if and only if none is left out. */
  lemma DistinctCover(s: seq<int>, n: nat)
    requires forall i, j | 0 <= i < j < |s| :: s[i] != s[j]
    requires forall i | 0 <= i < |s| :: 0 <= s[i] < n
    ensures |s| <= n
    ensures |s| == n <==> forall k | 0 <= k < n :: k in s
  {
    DistinctFit(s, Range(n));
    forall k | 0 <= k < n && k !in s ensures |s| < n {
      DistinctFit(s, Range(n) - {k});
    }
    if forall k | 0 <= k < n :: k in s {
      RangeFits(s, n);
    }
  }

  lemma RangeFits(s: seq<int>, n: nat)
    requires forall i, j | 0 <= i < j < |s| :: s[i] != s[j]
    requires forall k | 0 <= k < n :: k in s
    ensures |s| >= n
  {
    if n > 0 {
      assert n - 1 in s;
      var i :| 0 <= i < |s| && s[i] == n - 1;
      var rest := s[..i] + s[i + 1..];
      assert s == s[..i] + [s[i]] + s[i + 1..];
      forall k | 0 <= k < n - 1 ensures k in rest {
        assert k in s;
      }
      RangeFits(rest, n - 1);
    }
  }

  function Firsts(m: seq<Pair>): seq<int> {
    seq(|m|, i requires 0 <= i < |m| => m[i].0)
  }

  function Seconds(m: seq<Pair>): seq<int> {
    seq(|m|, i requires 0 <= i < |m| => m[i].1)
  }

  lemma CoverBySize(g: Graph, m: seq<Pair>)
    requires g.Valid() && IsMatching(g, m)
    ensures |m| <= g.lhs && |m| <= g.rhs
    ensures CoversElements(g, m) <==> |m| == g.lhs
    ensures CoversMatchers(g, m) <==> |m| == g.rhs
  {
    forall i | 0 <= i < |m| ensures 0 <= m[i].0 < g.lhs && 0 <= m[i].1 < g.rhs {
      assert IsEdge(g, m[i].0, m[i].1);
    }
    CoverElementsBySize(g, m);
    CoverMatchersBySize(g, m);
  }

  lemma CoverElementsBySize(g: Graph, m: seq<Pair>)
    requires forall i | 0 <= i < |m| :: m[i].0 < g.lhs
    requires forall i, j | 0 <= i < j < |m| :: m[i].0 != m[j].0
    ensures |m| <= g.lhs
    ensures CoversElements(g, m) <==> |m| == g.lhs
  {
    var s := Firsts(m);
    DistinctCover(s, g.lhs);
    forall l: nat | l < g.lhs ensures l in s <==> HasElement(m, l) {
      if i :| 0 <= i < |m| && m[i].0 == l { assert s[i] == l; }
    }
  }

  lemma CoverMatchersBySize(g: Graph, m: seq<Pair>)
    requires forall i | 0 <= i < |m| :: m[i].1 < g.rhs
    requires forall i, j | 0 <= i < j < |m| :: m[i].1 != m[j].1
    ensures |m| <= g.rhs
    ensures CoversMatchers(g, m) <==> |m| == g.rhs
  {
    var s := Seconds(m);
    DistinctCover(s, g.rhs);
    forall r: nat | r < g.rhs ensures r in s <==> HasMatcher(m, r) {
      if i :| 0 <= i < |m| && m[i].1 == r { assert s[i] == r; }
    }
  }

  /** The size of a maximum matching decides whether a saturating one exists. */
  lemma SizeDecides(require: Require, g: Graph, best: seq<Pair>)
    requires g.Valid() && IsMaximum(g, best)
    ensures (exists m: seq<Pair> :: Saturating(require, g, m)) <==>
            (require.Matchers() ==> |best| >= g.rhs) && (require.Elements() ==> |best| >= g.lhs)
  {
    CoverBySize(g, best);
    assert (require.Matchers() ==> |best| >= g.rhs) && (require.Elements() ==> |best| >= g.lhs)
      ==> Saturating(require, g, best);
    forall m: seq<Pair> | Saturating(require, g, m)
      ensures (require.Matchers() ==> |best| >= g.rhs) && (require.Elements() ==> |best| >= g.lhs)
    {
      CoverBySize(g, m);
    }
  }

  method FindPairing(require: Require, matrix: Graph) returns (ok: bool)
    requires matrix.Valid()
    ensures ok <==> exists m: seq<Pair> :: Saturating(require, matrix, m)
  {
    var matches := FindMaxBipartiteMatching(matrix);
    SizeDecides(require, matrix, matches);
    if require.Matchers() && |matches| < matrix.rhs {
      return false;
    }
    if require.Elements() && |matches| < matrix.lhs {
      return false;
    }
    return true;
  }

  ghost predicate ElementMatched(g: Graph, l: nat)
    requires g.Valid()
  {
    exists r :: IsEdge(g, l, r)
  }

  ghost predicate MatcherMatched(g: Graph, r: nat)
    requires g.Valid()
  {
    exists l :: IsEdge(g, l, r)
  }

  /** What the quick check looks at: the sizes, and whether somebody on a required side matches nothing at all. */
  ghost predicate Plausible(require: Require, g: Graph)
    requires g.Valid()
  {
    && (require == ExactMatch ==> g.lhs == g.rhs)
    && (require.Matchers() ==> forall r: nat | r < g.rhs :: MatcherMatched(g, r))
    && (require.Elements() ==> forall l: nat | l < g.lhs :: ElementMatched(g, l))
  }

  /** The quick check rejects nothing that has a saturating pairing. */
  lemma SaturatingIsPlausible(require: Require, g: Graph, m: seq<Pair>)
    requires g.Valid() && Saturating(require, g, m)
    ensures Plausible(require, g)
  {
    CoverBySize(g, m);
    if require.Matchers() {
      forall r: nat | r < g.rhs ensures MatcherMatched(g, r) {
        assert HasMatcher(m, r);
        var i :| 0 <= i < |m| && m[i].1 == r;
        assert IsEdge(g, m[i].0, r);
      }
    }
    if require.Elements() {
      forall l: nat | l < g.lhs ensures ElementMatched(g, l) {
        assert HasElement(m, l);
        var i :| 0 <= i < |m| && m[i].0 == l;
        assert IsEdge(g, l, m[i].1);
      }
    }
  }

  /** Whether one of the first `upTo` cells of row `l` (or column `r`) is set. */
  ghost predicate RowHit(g: Graph, l: nat, upTo: int)
    requires g.Valid()
  {
    exists r :: 0 <= r < upTo && IsEdge(g, l, r)
  }

  ghost predicate ColumnHit(g: Graph, r: nat, upTo: int)
    requires g.Valid()
  {
    exists l :: 0 <= l < upTo && IsEdge(g, l, r)
  }

  lemma HitsAtEnd(g: Graph)
    requires g.Valid()
    ensures forall l: nat | l < g.lhs :: RowHit(g, l, g.rhs) == ElementMatched(g, l)
    ensures forall r: nat | r < g.rhs :: ColumnHit(g, r, g.lhs) == MatcherMatched(g, r)
  {
  }

  method VerifyMatchMatrix(require: Require, matrix: Graph) returns (ok: bool)
    requires matrix.Valid()
    ensures ok <==> Plausible(require, matrix)
  {
    if matrix.lhs == 0 && matrix.rhs == 0 {
      return true;
    }
    var result := !(require == ExactMatch && matrix.lhs != matrix.rhs);
    var elementMatched := new bool[matrix.lhs](_ => false);
    var matcherMatched := new bool[matrix.rhs](_ => false);
    for l := 0 to matrix.lhs
      invariant forall x: nat | x < l :: elementMatched[x] == RowHit(matrix, x, matrix.rhs)
      invariant forall x: nat | l <= x < matrix.lhs :: !elementMatched[x]
      invariant forall r: nat | r < matrix.rhs :: matcherMatched[r] == ColumnHit(matrix, r, l)
    {
      for r := 0 to matrix.rhs
        invariant forall x: nat | x < l :: elementMatched[x] == RowHit(matrix, x, matrix.rhs)
        invariant forall x: nat | l < x < matrix.lhs :: !elementMatched[x]
        invariant elementMatched[l] == RowHit(matrix, l, r)
        invariant forall x: nat | x < matrix.rhs ::
          matcherMatched[x] == ColumnHit(matrix, x, if x < r then l + 1 else l)
      {
        var matched := matrix.HasEdge(l, r);
        HitStep(matrix, l, r);
        elementMatched[l] := elementMatched[l] || matched;
        matcherMatched[r] := matcherMatched[r] || matched;
      }
    }
    HitsAtEnd(matrix);
    var matchersOk := AllSet(matcherMatched[..]);
    var elementsOk := AllSet(elementMatched[..]);
    assert matchersOk <==> forall r: nat | r < matrix.rhs :: MatcherMatched(matrix, r);
    assert elementsOk <==> forall l: nat | l < matrix.lhs :: ElementMatched(matrix, l);
    if require.Matchers() {
      result := result && matchersOk;
    }
    if require.Elements() {
      result := result && elementsOk;
    }
    return result;
  }

  lemma HitStep(g: Graph, l: nat, r: nat)
    requires g.Valid() && l < g.lhs && r < g.rhs
    ensures RowHit(g, l, r + 1) == (RowHit(g, l, r) || g.HasEdge(l, r))
    ensures ColumnHit(g, r, l + 1) == (ColumnHit(g, r, l) || g.HasEdge(l, r))
  {
    assert IsEdge(g, l, r) == g.HasEdge(l, r);
    forall x | 0 <= x < r + 1 && IsEdge(g, l, x) ensures RowHit(g, l, r) || g.HasEdge(l, r) {
      if x < r { assert RowHit(g, l, r); }
    }
    forall x | 0 <= x < l + 1 && IsEdge(g, x, r) ensures ColumnHit(g, r, l) || g.HasEdge(l, r) {
      if x < l { assert ColumnHit(g, r, l); }
    }
  }

  method AllSet(flags: seq<bool>) returns (ok: bool)
    ensures ok <==> forall i: nat | i < |flags| :: flags[i]
  {
    ok := true;
    for i := 0 to |flags|
      invariant ok <==> forall k: nat | k < i :: flags[k]
    {
      if !flags[i] { ok := false; }
    }
  }

  /** The whole matcher: the quick check first, the search only if that passes; together they decide exactly
      whether a saturating pairing exists. */
  method MatchAndExplain(require: Require, matrix: Graph) returns (ok: bool)
    requires matrix.Valid()
    ensures ok <==> exists m: seq<Pair> :: Saturating(require, matrix, m)
  {
    ok := VerifyMatchMatrix(require, matrix);
    forall m: seq<Pair> | Saturating(require, matrix, m) ensures Plausible(require, matrix) {
      SaturatingIsPlausible(require, matrix, m);
    }
    if ok {
      ok := FindPairing(require, matrix);
    }
  }
}
