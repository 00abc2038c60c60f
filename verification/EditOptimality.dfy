/** When the edit scripts are optimal: exactly when no table entry is filled from a tie. */
module EditOptimality {
  import opened EditDistance

  /** No script for the first `i` and `j` elements costs less than the table says. */
  ghost predicate Optimal<T>(left: seq<T>, right: seq<T>, i: nat, j: nat)
    requires i <= |left| && j <= |right|
  {
    forall edits | IsScript(edits, left[..i], right[..j]) :: CostOf(edits) >= Cost(left, right, i, j)
  }

  /** The entry falls to the replacement although adding or removing is cheaper: neither is strictly the cheapest of
      the three neighbours. */
  predicate Tie<T(==)>(left: seq<T>, right: seq<T>, i: nat, j: nat)
    requires i < |left| && j < |right|
  {
    var add, remove, replace := Cost(left, right, i + 1, j), Cost(left, right, i, j + 1), Cost(left, right, i, j);
    && left[i] != right[j]
    && !(add < remove && add < replace) && !(remove < add && remove < replace)
    && (add + 1.0 < replace + REPLACE_COST || remove + 1.0 < replace + REPLACE_COST)
  }

  ghost predicate NoTies<T>(left: seq<T>, right: seq<T>) {
    forall i: nat, j: nat | i < |left| && j < |right| :: !Tie(left, right, i, j)
  }

  ghost predicate AllOptimal<T>(left: seq<T>, right: seq<T>) {
    forall i: nat, j: nat | i <= |left| && j <= |right| :: Optimal(left, right, i, j)
  }

  lemma AppendEdit<T>(edits: seq<EditType>, e: EditType, left: seq<T>, right: seq<T>)
    requires FitsLast(e, left, right)
    requires IsScript(edits, Before(e.TakesLeft(), left), Before(e.TakesRight(), right))
    ensures IsScript(edits + [e], left, right) && CostOf(edits + [e]) == CostOf(edits) + CostOfEdit(e)
  {
    ScriptFromTheEnd(edits, e, left, right);
    CostFromTheEnd(edits, e);
  }

  lemma SplitEdit<T>(edits: seq<EditType>, left: seq<T>, right: seq<T>)
    requires edits != [] && IsScript(edits, left, right)
    ensures var e := edits[|edits| - 1];
            && FitsLast(e, left, right)
            && IsScript(edits[..|edits| - 1], Before(e.TakesLeft(), left), Before(e.TakesRight(), right))
            && CostOf(edits) == CostOf(edits[..|edits| - 1]) + CostOfEdit(e)
  {
    var e := edits[|edits| - 1];
    assert edits == edits[..|edits| - 1] + [e];
    ScriptFromTheEnd(edits[..|edits| - 1], e, left, right);
  }

  /** Giving up the last left element costs one edit at most. */
  lemma {:induction false} DropLeft<T>(edits: seq<EditType>, left: seq<T>, right: seq<T>)
    returns (short: seq<EditType>)
    requires IsScript(edits, left, right) && left != []
    ensures IsScript(short, left[..|left| - 1], right) && CostOf(short) <= CostOf(edits) + 1.0
    decreases |edits|
  {
    hide IsScript, CostOf;
    NotEmpty(edits, left, right);
    SplitEdit(edits, left, right);
    var e, init := edits[|edits| - 1], edits[..|edits| - 1];
    if e == Remove {
      short := init;
    } else if e == Add {
      var rest := DropLeft(init, left, right[..|right| - 1]);
      short := rest + [Add];
      AppendEdit(rest, Add, left[..|left| - 1], right);
    } else {
      short := init + [Add];
      AppendEdit(init, Add, left[..|left| - 1], right);
    }
  }

  lemma {:induction false} DropRight<T>(edits: seq<EditType>, left: seq<T>, right: seq<T>)
    returns (short: seq<EditType>)
    requires IsScript(edits, left, right) && right != []
    ensures IsScript(short, left, right[..|right| - 1]) && CostOf(short) <= CostOf(edits) + 1.0
    decreases |edits|
  {
    hide IsScript, CostOf;
    NotEmpty(edits, left, right);
    SplitEdit(edits, left, right);
    var e, init := edits[|edits| - 1], edits[..|edits| - 1];
    if e == Add {
      short := init;
    } else if e == Remove {
      var rest := DropRight(init, left[..|left| - 1], right);
      short := rest + [Remove];
      AppendEdit(rest, Remove, left, right[..|right| - 1]);
    } else {
      short := init + [Remove];
      AppendEdit(init, Remove, left, right[..|right| - 1]);
    }
  }

  lemma NotEmpty<T>(edits: seq<EditType>, left: seq<T>, right: seq<T>)
    requires IsScript(edits, left, right)
    ensures edits == [] <==> left == [] && right == []
  {
    if edits != [] { SplitEdit(edits, left, right); }
  }

  /** Where elements are equal, matching them is as good as anything. */
  lemma MatchIsCheapest<T>(left: seq<T>, right: seq<T>, i: nat, j: nat)
    requires i < |left| && j < |right| && Optimal(left, right, i, j)
    ensures Cost(left, right, i, j) <= Cost(left, right, i + 1, j) + 1.0
    ensures Cost(left, right, i, j) <= Cost(left, right, i, j + 1) + 1.0
  {
    hide IsScript, CostOf, Cost, Path;
    PathIsScript(left, right, i + 1, j);
    var a := DropLeft(Path(left, right, i + 1, j), left[..i + 1], right[..j]);
    assert left[..i + 1][..i] == left[..i];
    PathIsScript(left, right, i, j + 1);
    var b := DropRight(Path(left, right, i, j + 1), left[..i], right[..j + 1]);
    assert right[..j + 1][..j] == right[..j];
  }

  /** No last edit leads to an entry more cheaply than the table does. */
  lemma LastEditBound<T>(left: seq<T>, right: seq<T>, i: nat, j: nat, e: EditType)
    requires i <= |left| && j <= |right| && FitsLast(e, left[..i], right[..j])
    requires i > 0 && j > 0 ==> !Tie(left, right, i - 1, j - 1) && Optimal(left, right, i - 1, j - 1)
    ensures Cost(left, right, i, j) <= CostOfEdit(e)
              + Cost(left, right, if e.TakesLeft() then i - 1 else i, if e.TakesRight() then j - 1 else j)
  {
    hide Cost, Optimal;
    if i == 0 || j == 0 {
      BorderEditCost(left, right, i, j, e);
    } else {
      CellCosts(left, right, i - 1, j - 1);
      MatchIsCheapest(left, right, i - 1, j - 1);
    }
  }

  /** On the border the only edit that fits costs what the table says. */
  lemma BorderEditCost<T>(left: seq<T>, right: seq<T>, i: nat, j: nat, e: EditType)
    requires i <= |left| && j <= |right| && FitsLast(e, left[..i], right[..j]) && (i == 0 || j == 0)
    ensures Cost(left, right, i, j) == CostOfEdit(e)
              + Cost(left, right, if e.TakesLeft() then i - 1 else i, if e.TakesRight() then j - 1 else j)
  {
    hide Cost;
    BorderCosts(left, right, i, j);
    BorderCosts(left, right, if i > 0 then i - 1 else 0, if j > 0 then j - 1 else 0);
  }

  lemma {:induction false} OptimalWithoutTies<T>(left: seq<T>, right: seq<T>, i: nat, j: nat)
    requires NoTies(left, right) && i <= |left| && j <= |right|
    ensures Optimal(left, right, i, j)
    decreases i + j
  {
    forall edits | IsScript(edits, left[..i], right[..j]) ensures CostOf(edits) >= Cost(left, right, i, j) {
      NotEmpty(edits, left[..i], right[..j]);
      if i == 0 && j == 0 {
        BorderCosts(left, right, 0, 0);
      } else {
        LongerIsOptimal(left, right, i, j, edits);
      }
    }
  }

  lemma {:induction false} LongerIsOptimal<T>(left: seq<T>, right: seq<T>, i: nat, j: nat, edits: seq<EditType>)
    requires NoTies(left, right) && i <= |left| && j <= |right| && i + j > 0
    requires edits != [] && IsScript(edits, left[..i], right[..j])
    ensures CostOf(edits) >= Cost(left, right, i, j)
    decreases i + j, 0
  {
    hide IsScript, CostOf, Cost, Tie;
    SplitEdit(edits, left[..i], right[..j]);
    var e, init := edits[|edits| - 1], edits[..|edits| - 1];
    var i', j' := if e.TakesLeft() then i - 1 else i, if e.TakesRight() then j - 1 else j;
    assert Before(e.TakesLeft(), left[..i]) == left[..i'] && Before(e.TakesRight(), right[..j]) == right[..j'];
    OptimalWithoutTies(left, right, i', j');
    if i > 0 && j > 0 { OptimalWithoutTies(left, right, i - 1, j - 1); }
    LastEditBound(left, right, i, j, e);
  }

  lemma TieIsNotOptimal<T>(left: seq<T>, right: seq<T>, i: nat, j: nat)
    requires i < |left| && j < |right| && Tie(left, right, i, j)
    ensures !Optimal(left, right, i + 1, j + 1)
  {
    hide IsScript, CostOf, Cost, Path;
    CellCosts(left, right, i, j);
    var l, r := left[..i + 1], right[..j + 1];
    assert l[..i] == left[..i] && r[..j] == right[..j];
    PathIsScript(left, right, i + 1, j);
    PathIsScript(left, right, i, j + 1);
    AppendEdit(Path(left, right, i + 1, j), Add, l, r);
    AppendEdit(Path(left, right, i, j + 1), Remove, l, r);
  }

  /** The whole table holds least costs exactly when no entry is filled from a tie; then the script read from it is
      a cheapest one. */
  lemma OptimalExactly<T>(left: seq<T>, right: seq<T>)
    ensures AllOptimal(left, right) <==> NoTies(left, right)
  {
    if NoTies(left, right) {
      forall i: nat, j: nat | i <= |left| && j <= |right| ensures Optimal(left, right, i, j) {
        OptimalWithoutTies(left, right, i, j);
      }
    }
    forall i: nat, j: nat | i < |left| && j < |right| && Tie(left, right, i, j) ensures !AllOptimal(left, right) {
      TieIsNotOptimal(left, right, i, j);
    }
  }

  lemma ScriptIsCheapest<T>(left: seq<T>, right: seq<T>, other: seq<EditType>)
    requires NoTies(left, right) && IsScript(other, left, right)
    ensures CostOf(Path(left, right, |left|, |right|)) <= CostOf(other)
  {
    PathIsScript(left, right, |left|, |right|);
    OptimalWithoutTies(left, right, |left|, |right|);
    assert left[..|left|] == left && right[..|right|] == right;
  }

  /** Ties do happen: three replacements where one removal and one addition would do. */
  lemma NotAlwaysOptimal()
    ensures Path("aba", "bab", 3, 3) == [Replace, Replace, Replace]
    ensures IsScript([Remove, Match, Match, Add], "aba", "bab") && CostOf([Remove, Match, Match, Add]) == 2.0
  {
    AlternatingPath();
    AlternatingShortcut();
  }

  lemma AlternatingPath()
    ensures Path("aba", "bab", 3, 3) == [Replace, Replace, Replace]
  {
    hide Cost, BestMove, Path;
    var l, r := "aba", "bab";
    BorderCosts(l, r, 0, 0);
    BorderCosts(l, r, 0, 1);
    BorderCosts(l, r, 1, 0);
    BorderCosts(l, r, 0, 2);
    BorderCosts(l, r, 2, 0);
    CellCosts(l, r, 0, 0);
    CellCosts(l, r, 0, 1);
    CellCosts(l, r, 1, 0);
    CellCosts(l, r, 1, 1);
    CellCosts(l, r, 1, 2);
    CellCosts(l, r, 2, 1);
    BorderCosts(l, r, 0, 3);
    BorderCosts(l, r, 3, 0);
    CellCosts(l, r, 2, 2);
    PathStep(l, r, 3, 3);
    PathStep(l, r, 2, 2);
    PathStep(l, r, 1, 1);
    PathStep(l, r, 0, 0);
  }

  lemma PathStep<T>(left: seq<T>, right: seq<T>, i: nat, j: nat)
    requires i <= |left| && j <= |right|
    ensures i == 0 && j == 0 ==> Path(left, right, i, j) == []
    ensures i > 0 && j > 0 && BestMove(left, right, i, j) == Replace ==>
              Path(left, right, i, j) == Path(left, right, i - 1, j - 1) + [Replace]
  {
  }

  lemma AlternatingShortcut()
    ensures IsScript([Remove, Match, Match, Add], "aba", "bab") && CostOf([Remove, Match, Match, Add]) == 2.0
  {
    hide IsScript, CostOf;
    EmptyScript<char>();
    AppendTo([], Remove, "", "", "a", "");
    assert [] + [Remove] == [Remove];
    assert "ab"[..1] == "a" && "b"[..0] == "" && "aba"[..2] == "ab" && "ba"[..1] == "b" && "bab"[..2] == "ba";
    AppendTo([Remove], Match, "a", "", "ab", "b");
    assert [Remove] + [Match] == [Remove, Match];
    AppendTo([Remove, Match], Match, "ab", "b", "aba", "ba");
    assert [Remove, Match] + [Match] == [Remove, Match, Match];
    AppendTo([Remove, Match, Match], Add, "aba", "ba", "aba", "bab");
    assert [Remove, Match, Match] + [Add] == [Remove, Match, Match, Add];
  }

  lemma AppendTo<T>(edits: seq<EditType>, e: EditType, left: seq<T>, right: seq<T>, left': seq<T>, right': seq<T>)
    requires IsScript(edits, left, right) && FitsLast(e, left', right')
    requires left == Before(e.TakesLeft(), left') && right == Before(e.TakesRight(), right')
    ensures IsScript(edits + [e], left', right') && CostOf(edits + [e]) == CostOf(edits) + CostOfEdit(e)
  {
    AppendEdit(edits, e, left', right');
  }
}
