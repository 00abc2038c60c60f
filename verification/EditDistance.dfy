/** Edit scripts between two sequences: the table, the path read back from it, and what its costs mean. */
module EditDistance {
  datatype EditType = Match | Add | Remove | Replace {
    predicate TakesLeft() { this != Add }
    predicate TakesRight() { this != Remove }
  }

  const REPLACE_COST: real := 1.00001

  function CostOfEdit(e: EditType): real {
    match e
    case Match => 0.0
    case Add => 1.0
    case Remove => 1.0
    case Replace => REPLACE_COST
  }

  function CostOf(edits: seq<EditType>): real {
    if edits == [] then 0.0 else CostOf(edits[..|edits| - 1]) + CostOfEdit(edits[|edits| - 1])
  }

  function Times(e: EditType, k: nat): seq<EditType> {
    if k == 0 then [] else Times(e, k - 1) + [e]
  }

  lemma {:induction false} CostOfTimes(e: EditType, k: nat)
    ensures CostOf(Times(e, k)) == k as real * CostOfEdit(e)
  {
    if k > 0 {
      CostOfTimes(e, k - 1);
      assert Times(e, k)[..|Times(e, k)| - 1] == Times(e, k - 1);
    }
  }

  lemma {:induction false} CostOfAddsAndRemoves(edits: seq<EditType>)
    requires forall i | 0 <= i < |edits| :: edits[i] == Add || edits[i] == Remove
    ensures CostOf(edits) == |edits| as real
  {
    if edits != [] { CostOfAddsAndRemoves(edits[..|edits| - 1]); }
  }

  /** A replacement is dearer than an add or a remove, but so little that as many replacements as one likes below
      100000 are cheaper than one add or remove more. */
  lemma ReplacementsOrOneMore(k: nat, others: seq<EditType>)
    requires forall i | 0 <= i < |others| :: others[i] == Add || others[i] == Remove
    ensures |others| == k && k > 0 ==> CostOf(others) < CostOf(Times(Replace, k))
    ensures |others| == k + 1 ==> (CostOf(Times(Replace, k)) < CostOf(others) <==> k < 100000)
  {
    CostOfTimes(Replace, k);
    CostOfAddsAndRemoves(others);
  }

  /** How many elements of the left (right) sequence the edits take. */
  function LeftUsed(edits: seq<EditType>): nat {
    if edits == [] then 0
    else LeftUsed(edits[..|edits| - 1]) + if edits[|edits| - 1].TakesLeft() then 1 else 0
  }

  function RightUsed(edits: seq<EditType>): nat {
    if edits == [] then 0
    else RightUsed(edits[..|edits| - 1]) + if edits[|edits| - 1].TakesRight() then 1 else 0
  }

  /** Whether edit `e` may be applied with `left[l]` and `right[r]` next: matches pass equal elements on,
      replacements exchange different ones. */
  predicate Fits<T(==)>(e: EditType, left: seq<T>, l: nat, right: seq<T>, r: nat) {
    && (e.TakesLeft() ==> l < |left|)
    && (e.TakesRight() ==> r < |right|)
    && (e == Match ==> left[l] == right[r])
    && (e == Replace ==> left[l] != right[r])
  }

  predicate FitsAt<T(==)>(edits: seq<EditType>, k: nat, left: seq<T>, right: seq<T>)
    requires k < |edits|
  {
    Fits(edits[k], left, LeftUsed(edits[..k]), right, RightUsed(edits[..k]))
  }

  /** `edits` turns the whole of `left` into the whole of `right`. */
  predicate IsScript<T(==)>(edits: seq<EditType>, left: seq<T>, right: seq<T>) {
    && (forall k | 0 <= k < |edits| :: FitsAt(edits, k, left, right))
    && LeftUsed(edits) == |left| && RightUsed(edits) == |right|
  }

  /** What the edits produce from `left`, taking new elements from `right`. */
  function Replayed<T(==)>(edits: seq<EditType>, left: seq<T>, right: seq<T>): seq<T>
    requires IsScript(edits, left, right)
  {
    ReplayedTo(edits, |edits|, left, right)
  }

  function ReplayedTo<T(==)>(edits: seq<EditType>, k: nat, left: seq<T>, right: seq<T>): seq<T>
    requires IsScript(edits, left, right) && k <= |edits|
  {
    if k == 0 then []
    else
      var l, r := LeftUsed(edits[..k - 1]), RightUsed(edits[..k - 1]);
      assert FitsAt(edits, k - 1, left, right);
      ReplayedTo(edits, k - 1, left, right)
      + match edits[k - 1]
        case Match => [left[l]]
        case Remove => []
        case _ => [right[r]]
  }

  lemma UsedStep(edits: seq<EditType>, k: nat)
    requires k < |edits|
    ensures LeftUsed(edits[..k + 1]) == LeftUsed(edits[..k]) + if edits[k].TakesLeft() then 1 else 0
    ensures RightUsed(edits[..k + 1]) == RightUsed(edits[..k]) + if edits[k].TakesRight() then 1 else 0
  {
    assert edits[..k + 1][..k] == edits[..k];
  }

  lemma {:induction false} UsedWithin(edits: seq<EditType>, k: nat)
    requires k <= |edits|
    ensures LeftUsed(edits[..k]) <= LeftUsed(edits) && RightUsed(edits[..k]) <= RightUsed(edits)
    decreases |edits| - k
  {
    if k < |edits| {
      UsedStep(edits, k);
      UsedWithin(edits, k + 1);
    } else {
      assert edits[..k] == edits;
    }
  }

  lemma {:induction false} ReplayedPrefix<T>(edits: seq<EditType>, k: nat, left: seq<T>, right: seq<T>)
    requires IsScript(edits, left, right) && k <= |edits|
    ensures RightUsed(edits[..k]) <= |right|
    ensures ReplayedTo(edits, k, left, right) == right[..RightUsed(edits[..k])]
  {
    UsedWithin(edits, k);
    if k > 0 {
      ReplayedPrefix(edits, k - 1, left, right);
      UsedStep(edits, k - 1);
      assert FitsAt(edits, k - 1, left, right);
    }
  }

  /** A script, replayed on the left sequence, gives the right one. */
  lemma ReplayGivesRight<T>(edits: seq<EditType>, left: seq<T>, right: seq<T>)
    requires IsScript(edits, left, right)
    ensures Replayed(edits, left, right) == right
  {
    ReplayedPrefix(edits, |edits|, left, right);
    assert edits[..|edits|] == edits;
  }

  function Before<T>(takes: bool, s: seq<T>): seq<T>
    requires takes ==> s != []
  {
    if takes then s[..|s| - 1] else s
  }

  /** The last edit takes the last elements. */
  predicate FitsLast<T(==)>(e: EditType, left: seq<T>, right: seq<T>) {
    && (e.TakesLeft() ==> left != [])
    && (e.TakesRight() ==> right != [])
    && (e == Match ==> left[|left| - 1] == right[|right| - 1])
    && (e == Replace ==> left[|left| - 1] != right[|right| - 1])
  }

  lemma ScriptFromTheEnd<T>(edits: seq<EditType>, e: EditType, left: seq<T>, right: seq<T>)
    ensures IsScript(edits + [e], left, right) <==>
            FitsLast(e, left, right) && IsScript(edits, Before(e.TakesLeft(), left), Before(e.TakesRight(), right))
  {
    var all, n := edits + [e], |edits|;
    assert all[..n] == edits;
    if IsScript(all, left, right) {
      assert FitsAt(all, n, left, right);
      forall k | 0 <= k < n
        ensures FitsAt(edits, k, Before(e.TakesLeft(), left), Before(e.TakesRight(), right))
      {
        assert all[..k] == edits[..k] && FitsAt(all, k, left, right);
        UsedStep(edits, k);
        UsedWithin(edits, k + 1);
      }
    }
    if FitsLast(e, left, right) && IsScript(edits, Before(e.TakesLeft(), left), Before(e.TakesRight(), right)) {
      forall k | 0 <= k < |all| ensures FitsAt(all, k, left, right) {
        if k < n {
          assert all[..k] == edits[..k];
          assert FitsAt(edits, k, Before(e.TakesLeft(), left), Before(e.TakesRight(), right));
        }
      }
    }
  }

  lemma CostFromTheEnd(edits: seq<EditType>, e: EditType)
    ensures CostOf(edits + [e]) == CostOf(edits) + CostOfEdit(e)
  {
    assert (edits + [e])[..|edits|] == edits;
  }

  // ----- the table

  /** The entry for the first `i` and `j` elements: its cost, and the move that leads to it. */
  function Cost<T(==)>(left: seq<T>, right: seq<T>, i: nat, j: nat): real
    requires i <= |left| && j <= |right|
  {
    if j == 0 then i as real
    else if i == 0 then j as real
    else if left[i - 1] == right[j - 1] then Cost(left, right, i - 1, j - 1)
    else
      var add, remove, replace :=
        Cost(left, right, i, j - 1), Cost(left, right, i - 1, j), Cost(left, right, i - 1, j - 1);
      if add < remove && add < replace then add + 1.0
      else if remove < add && remove < replace then remove + 1.0
      else replace + REPLACE_COST
  }

  function BestMove<T(==)>(left: seq<T>, right: seq<T>, i: nat, j: nat): EditType
    requires i <= |left| && j <= |right|
  {
    if j == 0 then Remove
    else if i == 0 then Add
    else if left[i - 1] == right[j - 1] then Match
    else
      var add, remove, replace :=
        Cost(left, right, i, j - 1), Cost(left, right, i - 1, j), Cost(left, right, i - 1, j - 1);
      if add < remove && add < replace then Add
      else if remove < add && remove < replace then Remove
      else Replace
  }

  /** The path the moves describe, from the origin. */
  function Path<T(==)>(left: seq<T>, right: seq<T>, i: nat, j: nat): seq<EditType>
    requires i <= |left| && j <= |right|
    decreases i + j
  {
    if i == 0 && j == 0 then []
    else
      var move := BestMove(left, right, i, j);
      Path(left, right, if move.TakesLeft() then i - 1 else i, if move.TakesRight() then j - 1 else j) + [move]
  }

  lemma MoveStep<T>(left: seq<T>, right: seq<T>, i: nat, j: nat)
    requires i <= |left| && j <= |right| && (i > 0 || j > 0)
    ensures var move := BestMove(left, right, i, j);
            && FitsLast(move, left[..i], right[..j])
            && Cost(left, right, i, j) == CostOfEdit(move)
                 + Cost(left, right, if move.TakesLeft() then i - 1 else i, if move.TakesRight() then j - 1 else j)
  {
  }

  /** The path is a script, and costs what the table says. */
  lemma {:induction false} PathIsScript<T>(left: seq<T>, right: seq<T>, i: nat, j: nat)
    requires i <= |left| && j <= |right|
    ensures IsScript(Path(left, right, i, j), left[..i], right[..j])
    ensures CostOf(Path(left, right, i, j)) == Cost(left, right, i, j)
    decreases i + j
  {
    hide Cost, BestMove, IsScript, CostOf;
    if i > 0 || j > 0 {
      MoveStep(left, right, i, j);
      var move := BestMove(left, right, i, j);
      var i', j' := if move.TakesLeft() then i - 1 else i, if move.TakesRight() then j - 1 else j;
      PathIsScript(left, right, i', j');
      assert Before(move.TakesLeft(), left[..i]) == left[..i'];
      assert Before(move.TakesRight(), right[..j]) == right[..j'];
      ScriptFromTheEnd(Path(left, right, i', j'), move, left[..i], right[..j]);
      CostFromTheEnd(Path(left, right, i', j'), move);
    } else {
      EmptyScript<T>();
      assert Cost(left, right, 0, 0) == 0.0 by { OriginIsFree(left, right); }
    }
  }

  /** Two pairs of sequences with the same elements equal to each other. */
  ghost predicate SameShape<S, T>(left: seq<S>, right: seq<S>, left': seq<T>, right': seq<T>) {
    && |left'| == |left| && |right'| == |right|
    && forall i, j | 0 <= i < |left| && 0 <= j < |right| :: left'[i] == right'[j] <==> left[i] == right[j]
  }

  lemma {:induction false} SameCost<S, T>(left: seq<S>, right: seq<S>, left': seq<T>, right': seq<T>, i: nat, j: nat)
    requires SameShape(left, right, left', right') && i <= |left| && j <= |right|
    ensures Cost(left, right, i, j) == Cost(left', right', i, j)
  {
    if i > 0 && j > 0 {
      SameCost(left, right, left', right', i - 1, j - 1);
      SameCost(left, right, left', right', i, j - 1);
      SameCost(left, right, left', right', i - 1, j);
    }
  }

  /** The path depends on nothing but which elements are equal. */
  lemma {:induction false} SamePath<S, T>(left: seq<S>, right: seq<S>, left': seq<T>, right': seq<T>, i: nat, j: nat)
    requires SameShape(left, right, left', right') && i <= |left| && j <= |right|
    ensures Path(left, right, i, j) == Path(left', right', i, j)
    decreases i + j
  {
    hide Cost, SameShape;
    if i > 0 || j > 0 {
      SameMove(left, right, left', right', i, j);
      var move := BestMove(left, right, i, j);
      SamePath(left, right, left', right',
               if move.TakesLeft() then i - 1 else i, if move.TakesRight() then j - 1 else j);
    }
  }

  lemma SameMove<S, T>(left: seq<S>, right: seq<S>, left': seq<T>, right': seq<T>, i: nat, j: nat)
    requires SameShape(left, right, left', right') && i <= |left| && j <= |right|
    ensures |left'| == |left| && |right'| == |right| && BestMove(left, right, i, j) == BestMove(left', right', i, j)
  {
    hide Cost;
    if i > 0 && j > 0 {
      SameCost(left, right, left', right', i - 1, j - 1);
      SameCost(left, right, left', right', i, j - 1);
      SameCost(left, right, left', right', i - 1, j);
    }
  }

  lemma EmptyScript<T>()
    ensures IsScript<T>([], [], []) && CostOf([]) == 0.0
  {
  }

  lemma OriginIsFree<T>(left: seq<T>, right: seq<T>)
    ensures Cost(left, right, 0, 0) == 0.0
  {
  }

  method CalculateOptimalEdits<T(==)>(left: seq<T>, right: seq<T>) returns (edits: seq<EditType>)
    ensures edits == Path(left, right, |left|, |right|)
    ensures IsScript(edits, left, right)
  {
    hide Cost, BestMove, IsScript;
    var costs := new real[|left| + 1, |right| + 1];
    var bestMove := new EditType[|left| + 1, |right| + 1];
    FillBorders(left, right, costs, bestMove);
    FillCells(left, right, costs, bestMove);
    edits := ReadPath(left, right, bestMove);
    PathIsScript(left, right, |left|, |right|);
    assert left[..|left|] == left && right[..|right|] == right;
  }

  lemma BorderCosts<T>(left: seq<T>, right: seq<T>, i: nat, j: nat)
    requires i <= |left| && j <= |right| && (i == 0 || j == 0)
    ensures Cost(left, right, i, j) == (i + j) as real
    ensures BestMove(left, right, i, j) == if j == 0 then Remove else Add
  {
  }

  method FillBorders<T(==)>(left: seq<T>, right: seq<T>, costs: array2<real>, bestMove: array2<EditType>)
    requires Sized(left, right, costs, bestMove)
    modifies costs, bestMove
    ensures Filled(left, right, costs, bestMove, 0, |right|)
  {
    hide Cost, BestMove;
    for i := 0 to costs.Length0
      invariant forall x: nat | x < i ::
        costs[x, 0] == Cost(left, right, x, 0) && bestMove[x, 0] == BestMove(left, right, x, 0)
    {
      BorderCosts(left, right, i, 0);
      costs[i, 0] := i as real;
      bestMove[i, 0] := Remove;
    }
    for j := 1 to costs.Length1
      invariant forall x: nat | x <= |left| ::
        costs[x, 0] == Cost(left, right, x, 0) && bestMove[x, 0] == BestMove(left, right, x, 0)
      invariant forall y: nat | y < j ::
        costs[0, y] == Cost(left, right, 0, y) && bestMove[0, y] == BestMove(left, right, 0, y)
    {
      BorderCosts(left, right, 0, j);
      costs[0, j] := j as real;
      bestMove[0, j] := Add;
    }
  }

  lemma CellCosts<T>(left: seq<T>, right: seq<T>, i: nat, j: nat)
    requires i < |left| && j < |right|
    ensures var add, remove := Cost(left, right, i + 1, j), Cost(left, right, i, j + 1);
            var replace := Cost(left, right, i, j);
            var cost, move := Cost(left, right, i + 1, j + 1), BestMove(left, right, i + 1, j + 1);
            if left[i] == right[j] then cost == replace && move == Match
            else if add < remove && add < replace then cost == add + 1.0 && move == Add
            else if remove < add && remove < replace then cost == remove + 1.0 && move == Remove
            else cost == replace + REPLACE_COST && move == Replace
  {
  }

  method FillCells<T(==)>(left: seq<T>, right: seq<T>, costs: array2<real>, bestMove: array2<EditType>)
    requires Sized(left, right, costs, bestMove) && Filled(left, right, costs, bestMove, 0, |right|)
    modifies costs, bestMove
    ensures Filled(left, right, costs, bestMove, |left|, |right|)
  {
    hide Cost, BestMove;
    for i := 0 to |left|
      invariant Filled(left, right, costs, bestMove, i, |right|)
    {
      for j := 0 to |right|
        invariant Filled(left, right, costs, bestMove, i + 1, j)
      {
        CellCosts(left, right, i, j);
        if left[i] == right[j] {
          costs[i + 1, j + 1] := costs[i, j];
          bestMove[i + 1, j + 1] := Match;
          continue;
        }
        var add, remove, replace := costs[i + 1, j], costs[i, j + 1], costs[i, j];
        if add < remove && add < replace {
          costs[i + 1, j + 1] := add + 1.0;
          bestMove[i + 1, j + 1] := Add;
        } else if remove < add && remove < replace {
          costs[i + 1, j + 1] := remove + 1.0;
          bestMove[i + 1, j + 1] := Remove;
        } else {
          costs[i + 1, j + 1] := replace + REPLACE_COST;
          bestMove[i + 1, j + 1] := Replace;
        }
      }
    }
  }

  predicate Sized<T>(left: seq<T>, right: seq<T>, costs: array2<real>, bestMove: array2<EditType>) {
    costs.Length0 == bestMove.Length0 == |left| + 1 && costs.Length1 == bestMove.Length1 == |right| + 1
  }

  /** The borders, the rows before row `i`, and the entries of row `i` up to `j` are final. */
  ghost predicate Filled<T>(left: seq<T>, right: seq<T>, costs: array2<real>, bestMove: array2<EditType>,
                            i: nat, j: nat)
    requires Sized(left, right, costs, bestMove)
    reads costs, bestMove
  {
    forall x: nat, y: nat | x <= |left| && y <= |right| && (x == 0 || y == 0 || x < i || (x == i && y <= j)) ::
      costs[x, y] == Cost(left, right, x, y) && bestMove[x, y] == BestMove(left, right, x, y)
  }

  function Reversed<T>(s: seq<T>): seq<T> {
    if s == [] then [] else [s[|s| - 1]] + Reversed(s[..|s| - 1])
  }

  method ReadPath<T(==)>(left: seq<T>, right: seq<T>, bestMove: array2<EditType>) returns (edits: seq<EditType>)
    requires bestMove.Length0 == |left| + 1 && bestMove.Length1 == |right| + 1
    requires forall x: nat, y: nat | x <= |left| && y <= |right| :: bestMove[x, y] == BestMove(left, right, x, y)
    ensures edits == Path(left, right, |left|, |right|)
  {
    hide BestMove;
    var bestPath: seq<EditType> := [];
    var i, j := |left|, |right|;
    while i > 0 || j > 0
      invariant 0 <= i <= |left| && 0 <= j <= |right|
      invariant Path(left, right, |left|, |right|) == Path(left, right, i, j) + Reversed(bestPath)
      decreases i + j
    {
      var move := bestMove[i, j];
      MoveStep(left, right, i, j);
      assert (bestPath + [move])[..|bestPath|] == bestPath;
      bestPath := bestPath + [move];
      i := if move.TakesLeft() then i - 1 else i;
      j := if move.TakesRight() then j - 1 else j;
    }
    edits := Reversed(bestPath);
  }
}
