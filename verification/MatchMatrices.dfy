/** The match matrix in its flattened form, and the walk through all matrices of one size. */
module MatchMatrices {
  import opened BipartiteMatching

  lemma CellInRange(lhs: nat, rhs: nat, l: nat, r: nat)
    requires l < lhs && r < rhs
    ensures 0 <= l * rhs + r < lhs * rhs
  {
    assert l * rhs <= (lhs - 1) * rhs;
    assert (lhs - 1) * rhs + rhs == lhs * rhs;
  }

  lemma CellsDiffer(rhs: nat, l: nat, r: nat, l': nat, r': nat)
    requires r < rhs && r' < rhs && l * rhs + r == l' * rhs + r'
    ensures l == l' && r == r'
  {
    assert l < l' ==> (l + 1) * rhs <= l' * rhs;
    assert l' < l ==> (l' + 1) * rhs <= l * rhs;
  }

  function Cell(lhs: nat, rhs: nat, bits: seq<bool>, l: nat, r: nat): bool
    requires |bits| == lhs * rhs && l < lhs && r < rhs
  {
    CellInRange(lhs, rhs, l, r);
    bits[l * rhs + r]
  }

  function Row(lhs: nat, rhs: nat, bits: seq<bool>, l: nat): seq<bool>
    requires |bits| == lhs * rhs && l < lhs
  {
    seq(rhs, r requires 0 <= r < rhs => Cell(lhs, rhs, bits, l, r))
  }

  function GraphOf(lhs: nat, rhs: nat, bits: seq<bool>): (g: Graph)
    requires |bits| == lhs * rhs
    ensures g.Valid() && g.lhs == lhs && g.rhs == rhs
    ensures forall l: nat, r: nat | l < lhs && r < rhs :: g.HasEdge(l, r) == Cell(lhs, rhs, bits, l, r)
  {
    Graph(lhs, rhs, seq(lhs, l requires 0 <= l < lhs => Row(lhs, rhs, bits, l)))
  }

  function Pow2(n: nat): nat {
    if n == 0 then 1 else 2 * Pow2(n - 1)
  }

  /** The cells read as a number, first cell first. */
  function Value(bits: seq<bool>): nat {
    if bits == [] then 0 else (if bits[0] then 1 else 0) + 2 * Value(bits[1..])
  }

  function Successor(bits: seq<bool>): (s: seq<bool>)
    ensures |s| == |bits|
  {
    if bits == [] then []
    else if !bits[0] then [true] + bits[1..]
    else [false] + Successor(bits[1..])
  }

  lemma {:induction false} ValueBelow(bits: seq<bool>)
    ensures Value(bits) < Pow2(|bits|)
  {
    if bits != [] { ValueBelow(bits[1..]); }
  }

  /** The successor is one more, and wraps to the empty matrix from the full one only. */
  lemma {:induction false} SuccessorAddsOne(bits: seq<bool>)
    ensures Value(Successor(bits)) == if Value(bits) + 1 == Pow2(|bits|) then 0 else Value(bits) + 1
  {
    if bits != [] {
      ValueBelow(bits[1..]);
      SuccessorAddsOne(bits[1..]);
      assert Successor(bits)[1..] == if bits[0] then Successor(bits[1..]) else bits[1..];
    }
  }

  lemma {:induction false} ValueInjective(a: seq<bool>, b: seq<bool>)
    requires |a| == |b| && Value(a) == Value(b)
    ensures a == b
  {
    if a != [] {
      ValueInjective(a[1..], b[1..]);
      assert a == [a[0]] + a[1..] && b == [b[0]] + b[1..];
    }
  }

  function Falses(n: nat): seq<bool> {
    seq(n, _ => false)
  }

  lemma {:induction false} FalsesAreZero(n: nat)
    ensures Value(Falses(n)) == 0
  {
    if n > 0 {
      assert Falses(n)[1..] == Falses(n - 1);
      FalsesAreZero(n - 1);
    }
  }

  function Steps(n: nat, k: nat): (s: seq<bool>)
    ensures |s| == n
  {
    if k == 0 then Falses(n) else Successor(Steps(n, k - 1))
  }

  lemma {:induction false} StepsValue(n: nat, k: nat)
    requires k < Pow2(n)
    ensures Value(Steps(n, k)) == k
  {
    if k == 0 {
      FalsesAreZero(n);
    } else {
      StepsValue(n, k - 1);
      SuccessorAddsOne(Steps(n, k - 1));
    }
  }

  /** Walking on from the empty matrix meets every matrix of its size once, at the step its number tells, and is
      back at the empty one only after all of them. */
  lemma WalkMeetsEveryMatrixOnce(bits: seq<bool>, k: nat)
    requires k < Pow2(|bits|)
    ensures Steps(|bits|, k) == bits <==> k == Value(bits)
    ensures Steps(|bits|, Pow2(|bits|)) == Falses(|bits|)
  {
    ValueBelow(bits);
    StepsValue(|bits|, k);
    if k == Value(bits) { ValueInjective(Steps(|bits|, k), bits); }
    StepsValue(|bits|, Pow2(|bits|) - 1);
    SuccessorAddsOne(Steps(|bits|, Pow2(|bits|) - 1));
    FalsesAreZero(|bits|);
    ValueInjective(Steps(|bits|, Pow2(|bits|)), Falses(|bits|));
  }

  /** The first `k` cells were set and have been cleared, the rest is untouched. */
  ghost predicate Carried(was: seq<bool>, now: seq<bool>, k: nat) {
    && k <= |was| == |now|
    && (forall i | 0 <= i < k :: was[i] && !now[i])
    && (forall i | k <= i < |was| :: now[i] == was[i])
  }

  lemma {:induction false} CarryIsSuccessor(was: seq<bool>, now: seq<bool>, k: nat)
    requires Carried(was, now, k) && (k < |was| ==> !was[k])
    ensures Successor(was) == if k < |was| then now[k := true] else now
  {
    if k > 0 {
      CarryIsSuccessor(was[1..], now[1..], k - 1);
    }
  }

  class MatchMatrix {
    const lhs: nat
    const rhs: nat
    const matched: array<bool>

    ghost predicate Valid()
      reads this
    {
      matched.Length == lhs * rhs
    }

    ghost function View(): Graph
      reads this, matched
      requires Valid()
    {
      GraphOf(lhs, rhs, matched[..])
    }

    constructor (elements: nat, matchers: nat)
      ensures lhs == elements && rhs == matchers && Valid() && fresh(matched)
      ensures matched[..] == Falses(elements * matchers)
    {
      lhs := elements;
      rhs := matchers;
      matched := new bool[elements * matchers](_ => false);
    }

    method HasEdge(l: nat, r: nat) returns (b: bool)
      requires Valid() && l < lhs && r < rhs
      ensures b == View().HasEdge(l, r)
    {
      CellInRange(lhs, rhs, l, r);
      b := matched[l * rhs + r];
      assert b == Cell(lhs, rhs, matched[..], l, r);
    }

    method SetEdge(l: nat, r: nat, b: bool)
      requires Valid() && l < lhs && r < rhs
      modifies matched
      ensures forall x: nat, y: nat | x < lhs && y < rhs ::
        View().HasEdge(x, y) == if x == l && y == r then b else old(View()).HasEdge(x, y)
    {
      CellInRange(lhs, rhs, l, r);
      ghost var was := matched[..];
      matched[l * rhs + r] := b;
      forall x: nat, y: nat | x < lhs && y < rhs
        ensures Cell(lhs, rhs, matched[..], x, y) == if x == l && y == r then b else Cell(lhs, rhs, was, x, y)
      {
        CellInRange(lhs, rhs, x, y);
        if x * rhs + y == l * rhs + r { CellsDiffer(rhs, x, y, l, r); }
      }
    }

    /** Adds one to the number the cells stand for; false when that leaves no edge at all. */
    method NextGraph() returns (more: bool)
      requires Valid()
      modifies matched
      ensures matched[..] == Successor(old(matched[..]))
      ensures more == exists i :: 0 <= i < matched.Length && matched[i]
    {
      ghost var was := matched[..];
      ghost var base: nat := 0;
      for l := 0 to lhs
        invariant base == l * rhs
        invariant Carried(was, matched[..], base)
      {
        for r := 0 to rhs
          invariant Carried(was, matched[..], base + r)
        {
          var at := l * rhs + r;
          assert at == base + r;
          CellInRange(lhs, rhs, l, r);
          ghost var now := matched[..];
          if !matched[at] {
            matched[at] := true;
            CarryIsSuccessor(was, now, at);
            assert matched[..] == now[at := true];
            return true;
          }
          matched[at] := false;
        }
        assert (l + 1) * rhs == base + rhs;
        base := base + rhs;
      }
      CarryIsSuccessor(was, matched[..], base);
      return false;
    }
  }
}
