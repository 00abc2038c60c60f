/** Unified diffs: interned lines, hunks, the diff as a list of hunks, and what applying it as a patch gives. */
module UnifiedDiff {
  import opened EditDistance
  import opened Options

  // ----- interning

  /** Gives equal strings equal numbers and different strings different ones. */
  class InternalStrings {
    var ids: map<string, nat>

    ghost predicate Valid()
      reads this
    {
      && (forall s | s in ids :: ids[s] < |ids|)
      && (forall s, t | s in ids && t in ids && ids[s] == ids[t] :: s == t)
    }

    constructor ()
      ensures Valid() && ids == map[]
    {
      ids := map[];
    }

    method GetId(s: string) returns (id: nat)
      requires Valid()
      modifies this
      ensures Valid() && s in ids && ids[s] == id
      ensures forall t | t in old(ids) :: t in ids && ids[t] == old(ids)[t]
    {
      if s in ids {
        return ids[s];
      }
      id := |ids|;
      ids := ids[s := id];
    }
  }

  method InternAll(table: InternalStrings, lines: seq<string>) returns (ids: seq<nat>)
    requires table.Valid()
    modifies table
    ensures table.Valid() && |ids| == |lines|
    ensures forall t | t in old(table.ids) :: t in table.ids && table.ids[t] == old(table.ids)[t]
    ensures forall i | 0 <= i < |lines| :: lines[i] in table.ids && table.ids[lines[i]] == ids[i]
  {
    ids := [];
    for i := 0 to |lines|
      invariant table.Valid() && |ids| == i
      invariant forall t | t in old(table.ids) :: t in table.ids && table.ids[t] == old(table.ids)[t]
      invariant forall k | 0 <= k < i :: lines[k] in table.ids && table.ids[lines[k]] == ids[k]
    {
      var id := table.GetId(lines[i]);
      ids := ids + [id];
    }
  }

  lemma ScriptOfIds(edits: seq<EditType>, left: seq<string>, right: seq<string>, leftIds: seq<nat>, rightIds: seq<nat>)
    requires SameShape(left, right, leftIds, rightIds) && IsScript(edits, leftIds, rightIds)
    ensures IsScript(edits, left, right)
  {
    forall k | 0 <= k < |edits| ensures FitsAt(edits, k, left, right) {
      assert FitsAt(edits, k, leftIds, rightIds);
    }
  }

  /** Interning changes nothing: the edits are those of the lines themselves. */
  method EditsOfLines(left: seq<string>, right: seq<string>) returns (edits: seq<EditType>)
    ensures edits == Path(left, right, |left|, |right|)
    ensures IsScript(edits, left, right)
  {
    var table := new InternalStrings();
    var leftIds := InternAll(table, left);
    var rightIds := InternAll(table, right);
    edits := CalculateOptimalEdits(leftIds, rightIds);
    SamePath(left, right, leftIds, rightIds, |left|, |right|);
    ScriptOfIds(edits, left, right, leftIds, rightIds);
  }

  // ----- hunks

  datatype Line = Line(tag: char, text: string)

  /** The lines of the old (new) text that a hunk's lines stand for. */
  function OldLines(lines: seq<Line>): seq<string> {
    if lines == [] then []
    else OldLines(lines[..|lines| - 1])
         + if lines[|lines| - 1].tag == '+' then [] else [lines[|lines| - 1].text]
  }

  function NewLines(lines: seq<Line>): seq<string> {
    if lines == [] then []
    else NewLines(lines[..|lines| - 1])
         + if lines[|lines| - 1].tag == '-' then [] else [lines[|lines| - 1].text]
  }

  lemma {:induction false} LinesConcat(a: seq<Line>, b: seq<Line>)
    ensures OldLines(a + b) == OldLines(a) + OldLines(b) && NewLines(a + b) == NewLines(a) + NewLines(b)
    decreases |b|
  {
    if b == [] {
      assert a + b == a;
    } else {
      LinesConcat(a, b[..|b| - 1]);
      assert (a + b)[..|a + b| - 1] == a + b[..|b| - 1];
    }
  }

  ghost predicate AllTagged(lines: seq<Line>, tag: char) {
    forall i | 0 <= i < |lines| :: lines[i].tag == tag
  }

  lemma {:induction false} TaggedLines(lines: seq<Line>)
    ensures AllTagged(lines, '+') ==> OldLines(lines) == []
    ensures AllTagged(lines, '-') ==> NewLines(lines) == []
  {
    if lines != [] { TaggedLines(lines[..|lines| - 1]); }
  }

  /** How many of the lines are removed or added ones. */
  function Changes(lines: seq<Line>): nat {
    if lines == [] then 0 else Changes(lines[..|lines| - 1]) + if lines[|lines| - 1].tag == ' ' then 0 else 1
  }

  lemma {:induction false} ChangesConcat(a: seq<Line>, b: seq<Line>)
    ensures Changes(a + b) == Changes(a) + Changes(b)
    decreases |b|
  {
    if b == [] {
      assert a + b == a;
    } else {
      ChangesConcat(a, b[..|b| - 1]);
      assert (a + b)[..|a + b| - 1] == a + b[..|b| - 1];
    }
  }

  /** `b` is `a` with one line more: a removed one before the adds at the end, any other at the end. */
  ghost predicate Inserted(a: seq<Line>, k: nat, line: Line, b: seq<Line>) {
    && k <= |a| && b == a[..k] + [line] + a[k..]
    && (forall i | k <= i < |a| :: a[i].tag == '+')
    && (line.tag != '-' ==> k == |a|)
  }

  lemma InsertedChanges(a: seq<Line>, k: nat, line: Line, b: seq<Line>)
    requires Inserted(a, k, line, b)
    ensures Changes(b) == Changes(a) + if line.tag == ' ' then 0 else 1
  {
    hide Changes;
    assert Changes([line]) == if line.tag == ' ' then 0 else 1 by { OneChange(line); }
    ChangesConcat(a[..k] + [line], a[k..]);
    ChangesConcat(a[..k], [line]);
    ChangesConcat(a[..k], a[k..]);
    assert a == a[..k] + a[k..];
  }

  lemma OneChange(line: Line)
    ensures Changes([line]) == if line.tag == ' ' then 0 else 1
  {
    assert [line][..0] == [];
  }

  ghost predicate Common(lines: seq<Line>, i: nat, j: nat) {
    i <= j <= |lines| && forall k | i <= k < j :: lines[k].tag == ' '
  }

  /** Exactly `lead` common lines before the first change and `tail` after the last, and between changes never as many
      as would make two contexts. */
  ghost predicate Framed(lines: seq<Line>, context: nat, lead: nat, tail: nat) {
    && lead + tail < |lines|
    && Common(lines, 0, lead) && lines[lead].tag != ' '
    && Common(lines, |lines| - tail, |lines|) && lines[|lines| - tail - 1].tag != ' '
    && forall i: nat, j: nat | j <= |lines| - tail && Common(lines, i, j) :: j - i < 2 * context
  }

  /** The same, or no change yet. */
  ghost predicate Framing(lines: seq<Line>, context: nat, lead: nat, tail: nat) {
    lead <= context && (Framed(lines, context, lead, tail) || (|lines| == lead && Common(lines, 0, lead) && tail == 0))
  }

  lemma FramedCommon(a: seq<Line>, line: Line, context: nat, lead: nat, tail: nat)
    requires Framed(a, context, lead, tail) && line.tag == ' '
    ensures Framed(a + [line], context, lead, tail + 1)
  {
    var b := a + [line];
    forall i: nat, j: nat | j <= |a| - tail && Common(b, i, j) ensures j - i < 2 * context {
      assert Common(a, i, j) by { assert forall k | i <= k < j :: a[k] == b[k]; }
    }
  }

  lemma FramedChange(a: seq<Line>, k: nat, line: Line, b: seq<Line>, context: nat, lead: nat, tail: nat)
    requires Inserted(a, k, line, b) && line.tag != ' '
    requires context > 0 && tail < 2 * context && Framing(a, context, lead, tail)
    ensures Framed(b, context, lead, 0)
  {
    assert k < |a| ==> a[|a| - 1].tag == '+' && a[k].tag == '+';
    assert tail > 0 ==> a[|a| - 1].tag == ' ';
    assert lead <= k;
    assert forall x | 0 <= x < k :: b[x] == a[x];
    assert forall x | k < x < |b| :: b[x] == a[x - 1];
    forall i: nat, j: nat | j <= |b| && Common(b, i, j) ensures j - i < 2 * context {
      if i < j {
        assert b[j - 1].tag == ' ' && j <= k;
        assert Common(a, i, j);
      }
    }
  }

  /** Between two common lines, all removed lines come before all added ones. */
  ghost predicate Grouped(lines: seq<Line>) {
    && (forall i | 0 <= i < |lines| :: lines[i].tag in " -+")
    && (forall i, j | 0 <= i < j < |lines| && lines[i].tag == '+' && lines[j].tag == '-' ::
          exists k | i < k < j :: lines[k].tag == ' ')
  }

  lemma BodyGrouped(flushed: seq<Line>, removes: seq<Line>, adds: seq<Line>)
    requires AllTagged(removes, '-') && AllTagged(adds, '+')
    requires flushed == [] || flushed[|flushed| - 1].tag == ' '
    ensures Grouped(flushed + removes + adds) <==> Grouped(flushed)
  {
    var body, n := flushed + removes + adds, |flushed|;
    assert forall i | 0 <= i < n :: body[i] == flushed[i];
    assert forall i | n <= i < |body| :: body[i].tag == if i < n + |removes| then '-' else '+';
    if Grouped(flushed) {
      forall i, j | 0 <= i < j < |body| && body[i].tag == '+' && body[j].tag == '-'
        ensures exists k | i < k < j :: body[k].tag == ' '
      {
        if j < n {
          var k :| i < k < j && flushed[k].tag == ' ';
          assert body[k].tag == ' ';
        } else {
          assert i < n && body[n - 1].tag == ' ';
        }
      }
    }
    if Grouped(body) {
      forall i, j | 0 <= i < j < n && flushed[i].tag == '+' && flushed[j].tag == '-'
        ensures exists k | i < k < j :: flushed[k].tag == ' '
      {
        var k :| i < k < j && body[k].tag == ' ';
      }
    }
  }

  lemma GroupedCommon(lines: seq<Line>, text: string)
    requires Grouped(lines)
    ensures Grouped(lines + [Line(' ', text)])
  {
    var body := lines + [Line(' ', text)];
    forall i, j | 0 <= i < j < |body| && body[i].tag == '+' && body[j].tag == '-'
      ensures exists k | i < k < j :: body[k].tag == ' '
    {
      var k :| i < k < j && lines[k].tag == ' ';
      assert body[k].tag == ' ';
    }
  }

  datatype Extent = Extent(start: nat, length: nat)

  /** A hunk as it is printed: the extents its header shows, and its body. */
  datatype Printed = Printed(left: Option<Extent>, right: Option<Extent>, body: seq<Line>)

  /** A hunk being collected: `flushed` lines are final, after them all pending removes and then all pending adds. */
  class Hunk {
    const leftStart: nat
    const rightStart: nat
    var adds: nat
    var removes: nat
    var common: nat
    var flushed: seq<Line>
    var pendingAdds: seq<Line>
    var pendingRemoves: seq<Line>

    ghost function Body(): seq<Line>
      reads this
    {
      flushed + pendingRemoves + pendingAdds
    }

    ghost predicate Valid()
      reads this
    {
      && AllTagged(pendingRemoves, '-') && AllTagged(pendingAdds, '+')
      && removes + common == |OldLines(Body())| && adds + common == |NewLines(Body())|
      && removes + common + adds == |Body()|
    }

    /** Not printed yet, and in order so far. */
    ghost predicate InOrder()
      reads this
    {
      (flushed == [] || flushed[|flushed| - 1].tag == ' ') && Grouped(Body())
    }

    constructor (leftStart: nat, rightStart: nat)
      ensures InOrder()
      ensures Valid() && Body() == [] && adds == removes == common == 0
      ensures this.leftStart == leftStart && this.rightStart == rightStart
    {
      this.leftStart, this.rightStart := leftStart, rightStart;
      adds, removes, common := 0, 0, 0;
      flushed, pendingAdds, pendingRemoves := [], [], [];
    }

    /** Removes that come after pending adds are moved before them; neither text notices. */
    method PushLine(tag: char, text: string)
      requires Valid() && tag in " -+"
      modifies this
      ensures Valid()
      ensures OldLines(Body()) == old(OldLines(Body())) + if tag == '+' then [] else [text]
      ensures NewLines(Body()) == old(NewLines(Body())) + if tag == '-' then [] else [text]
      ensures common == old(common) + (if tag == ' ' then 1 else 0)
      ensures removes == old(removes) + (if tag == '-' then 1 else 0)
      ensures adds == old(adds) + (if tag == '+' then 1 else 0)
      ensures exists k: nat :: Inserted(old(Body()), k, Line(tag, text), Body())
      ensures old(InOrder()) ==> InOrder()
    {
      hide OldLines, NewLines, Inserted, Grouped;
      ghost var inOrder := InOrder();
      if inOrder { BodyGrouped(flushed, pendingRemoves, pendingAdds); }
      InsertedLast(Body(), Line(tag, text));
      InsertedRemove(flushed + pendingRemoves, pendingAdds, Line('-', text));
      assert flushed + pendingRemoves + [Line('-', text)] == flushed + (pendingRemoves + [Line('-', text)]);
      PushedLast(Body(), Line(tag, text));
      RemoveBeforeAdds(flushed, pendingRemoves, pendingAdds, text);
      AddedLast(flushed + pendingRemoves, pendingAdds, text);
      if tag == ' ' {
        common := common + 1;
        FlushEdits();
        flushed := flushed + [Line(' ', text)];
        assert Body() == flushed + [] + [] == flushed;
        if inOrder { GroupedCommon(old(Body()), text); }
      } else if tag == '-' {
        removes := removes + 1;
        pendingRemoves := pendingRemoves + [Line('-', text)];
        if inOrder { BodyGrouped(flushed, pendingRemoves, pendingAdds); }
      } else {
        adds := adds + 1;
        pendingAdds := pendingAdds + [Line('+', text)];
        if inOrder { BodyGrouped(flushed, pendingRemoves, pendingAdds); }
      }
    }

    method FlushEdits()
      requires AllTagged(pendingRemoves, '-') && AllTagged(pendingAdds, '+')
      modifies this`flushed, this`pendingRemoves, this`pendingAdds
      ensures flushed == Body() == old(Body()) && pendingRemoves == [] && pendingAdds == []
    {
      flushed := flushed + pendingRemoves;
      pendingRemoves := [];
      flushed := flushed + pendingAdds;
      pendingAdds := [];
    }

    predicate HasEdits()
      reads this
    {
      adds != 0 || removes != 0
    }

    /** The header counts the lines of either side; a side without edits is left out of it. */
    method Print() returns (p: Printed)
      requires Valid()
      modifies this`flushed, this`pendingRemoves, this`pendingAdds
      ensures Valid() && p.body == old(Body())
      ensures p.left.Some? <==> |NewLines(p.body)| < |p.body|
      ensures p.right.Some? <==> |OldLines(p.body)| < |p.body|
      ensures p.left == if removes != 0 then Some(Extent(leftStart, |OldLines(p.body)|)) else None
      ensures p.right == if adds != 0 then Some(Extent(rightStart, |NewLines(p.body)|)) else None
    {
      var left := if removes != 0 then Some(Extent(leftStart, removes + common)) else None;
      var right := if adds != 0 then Some(Extent(rightStart, adds + common)) else None;
      FlushEdits();
      p := Printed(left, right, flushed);
    }
  }

  lemma InsertedLast(body: seq<Line>, line: Line)
    ensures Inserted(body, |body|, line, body + [line])
  {
    assert body[..|body|] + [line] + body[|body|..] == body + [line];
  }

  lemma InsertedRemove(body: seq<Line>, adds: seq<Line>, line: Line)
    requires AllTagged(adds, '+') && line.tag == '-'
    ensures Inserted(body + adds, |body|, line, body + [line] + adds)
  {
    assert (body + adds)[..|body|] == body && (body + adds)[|body|..] == adds;
  }

  lemma PushedLast(body: seq<Line>, line: Line)
    ensures OldLines(body + [line]) == OldLines(body) + if line.tag == '+' then [] else [line.text]
    ensures NewLines(body + [line]) == NewLines(body) + if line.tag == '-' then [] else [line.text]
  {
    assert (body + [line])[..|body|] == body;
  }

  lemma AddedLast(body: seq<Line>, adds: seq<Line>, text: string)
    requires AllTagged(adds, '+')
    ensures AllTagged(adds + [Line('+', text)], '+')
    ensures body + (adds + [Line('+', text)]) == body + adds + [Line('+', text)]
  {
  }

  lemma RemoveBeforeAdds(flushed: seq<Line>, removes: seq<Line>, adds: seq<Line>, text: string)
    requires AllTagged(removes, '-') && AllTagged(adds, '+')
    ensures AllTagged(removes + [Line('-', text)], '-')
    ensures OldLines(flushed + (removes + [Line('-', text)]) + adds) == OldLines(flushed + removes + adds) + [text]
    ensures NewLines(flushed + (removes + [Line('-', text)]) + adds) == NewLines(flushed + removes + adds)
  {
    hide OldLines, NewLines;
    BodyLines(flushed, removes, adds);
    BodyLines(flushed, removes + [Line('-', text)], adds);
    PushedLast(removes, Line('-', text));
  }

  lemma BodyLines(flushed: seq<Line>, removes: seq<Line>, adds: seq<Line>)
    requires AllTagged(removes, '-') && AllTagged(adds, '+')
    ensures OldLines(flushed + removes + adds) == OldLines(flushed) + OldLines(removes)
    ensures NewLines(flushed + removes + adds) == NewLines(flushed) + NewLines(adds)
  {
    hide OldLines, NewLines;
    LinesConcat(flushed + removes, adds);
    LinesConcat(flushed, removes);
    TaggedLines(removes);
    TaggedLines(adds);
  }

  // ----- applying a patch

  /** How far a patch has come: the old text is used up to `used`, and `made` is the new text so far. */
  datatype Progress = Progress(used: nat, made: seq<string>)

  /** The number of old lines to copy before a hunk, from whichever extent its header shows. */
  function Skip(p: Progress, hunk: Printed): int {
    if hunk.left.Some? then hunk.left.value.start - 1 - p.used
    else if hunk.right.Some? then hunk.right.value.start - 1 - |p.made|
    else -1
  }

  /** Applies one hunk; fails unless it comes after the previous one, every extent shown is right in start and
      length, and the old lines are found where they should be. */
  function Apply(left: seq<string>, p: Progress, hunk: Printed): Option<Progress> {
    var skip := Skip(p, hunk);
    var before, after := OldLines(hunk.body), NewLines(hunk.body);
    var at := p.used + skip;
    if && 0 <= skip && at + |before| <= |left|
       && (hunk.left.Some? ==> hunk.left.value == Extent(at + 1, |before|))
       && (hunk.right.Some? ==> hunk.right.value == Extent(|p.made| + skip + 1, |after|))
       && left[at..at + |before|] == before
    then Some(Progress(at + |before|, p.made + left[p.used..at] + after))
    else None
  }

  function ApplyAll(left: seq<string>, hunks: seq<Printed>): Option<Progress> {
    if hunks == [] then Some(Progress(0, []))
    else
      match ApplyAll(left, hunks[..|hunks| - 1])
      case None => None
      case Some(p) => Apply(left, p, hunks[|hunks| - 1])
  }

  /** The new text, if every hunk applies. */
  function Patch(left: seq<string>, hunks: seq<Printed>): Option<seq<string>> {
    match ApplyAll(left, hunks)
    case None => None
    case Some(p) => if p.used <= |left| then Some(p.made + left[p.used..]) else None
  }

  // ----- building the diff

  /** The edits before `e` use up `l` old and `r` new lines. */
  ghost predicate Reached(edits: seq<EditType>, e: nat, l: nat, r: nat) {
    e <= |edits| && l == LeftUsed(edits[..e]) && r == RightUsed(edits[..e])
  }

  /** How many lines the edits remove and add. */
  function LinesChanged(edits: seq<EditType>): nat {
    if edits == [] then 0
    else LinesChanged(edits[..|edits| - 1])
         + match edits[|edits| - 1]
           case Match => 0
           case Replace => 2
           case _ => 1
  }

  lemma LinesChangedStep(edits: seq<EditType>, e: nat)
    requires e < |edits|
    ensures LinesChanged(edits[..e + 1])
            == LinesChanged(edits[..e]) + if edits[e] == Match then 0 else if edits[e] == Replace then 2 else 1
  {
    assert edits[..e + 1][..e] == edits[..e];
  }

  lemma {:induction false} MatchesChangeNothing(edits: seq<EditType>, e: nat, to: nat)
    requires e <= to && OnlyMatches(edits, e, to)
    ensures LinesChanged(edits[..to]) == LinesChanged(edits[..e])
    decreases if e < to then to - e else 0
  {
    if e < to {
      MatchesChangeNothing(edits, e, to - 1);
      LinesChangedStep(edits, to - 1);
    }
  }

  ghost predicate OnlyMatches(edits: seq<EditType>, from: nat, to: nat) {
    to <= |edits| && forall k | from <= k < to :: edits[k] == Match
  }

  /** The first edit at or after `e` that is no match, or the end. */
  function NextEdit(edits: seq<EditType>, e: nat): (n: nat)
    requires e <= |edits|
    ensures e <= n <= |edits| && (n < |edits| ==> edits[n] != Match)
    ensures forall k | e <= k < n :: edits[k] == Match
    decreases |edits| - e
  {
    if e < |edits| && edits[e] == Match then NextEdit(edits, e + 1) else e
  }

  lemma AnEdit(edits: seq<EditType>, e: nat, l: nat, r: nat, left: seq<string>, right: seq<string>)
    requires IsScript(edits, left, right) && Reached(edits, e, l, r) && e < |edits|
    ensures Fits(edits[e], left, l, right, r)
    ensures Reached(edits, e + 1, if edits[e].TakesLeft() then l + 1 else l, if edits[e].TakesRight() then r + 1 else r)
  {
    assert FitsAt(edits, e, left, right);
    UsedStep(edits, e);
  }

  lemma ReachedWithin(edits: seq<EditType>, e: nat, l: nat, r: nat, left: seq<string>, right: seq<string>)
    requires IsScript(edits, left, right) && Reached(edits, e, l, r)
    ensures l <= |left| && r <= |right|
    ensures e == |edits| ==> l == |left| && r == |right|
  {
    UsedWithin(edits, e);
    assert edits[..|edits|] == edits;
  }

  lemma {:induction false} MatchRun(edits: seq<EditType>, e: nat, l: nat, r: nat, to: nat,
                                    left: seq<string>, right: seq<string>)
    requires IsScript(edits, left, right) && Reached(edits, e, l, r)
    requires e <= to && OnlyMatches(edits, e, to)
    ensures Reached(edits, to, l + (to - e), r + (to - e))
    ensures l + (to - e) <= |left| && r + (to - e) <= |right|
    ensures left[l..l + (to - e)] == right[r..r + (to - e)]
    decreases if e < to then to - e else 0
  {
    ReachedWithin(edits, e, l, r, left, right);
    if e < to {
      AnEdit(edits, e, l, r, left, right);
      MatchRun(edits, e + 1, l + 1, r + 1, to, left, right);
      assert left[l..l + (to - e)] == [left[l]] + left[l + 1..l + (to - e)];
      assert right[r..r + (to - e)] == [right[r]] + right[r + 1..r + (to - e)];
    }
  }

  /** No further edit, or one that is at least `context` lines away. */
  predicate FarFromNext(edits: seq<EditType>, e: nat, context: nat)
    requires e <= |edits|
  {
    NextEdit(edits, e) == |edits| || NextEdit(edits, e) - e >= context
  }

  lemma NothingPushed()
    ensures OldLines([]) == [] && NewLines([]) == [] && Common([], 0, 0) && Changes([]) == 0
  {
  }

  lemma PushedContext(a: seq<Line>, line: Line, b: seq<Line>)
    requires exists k: nat :: Inserted(a, k, line, b)
    requires line.tag == ' ' && Common(a, 0, |a|)
    ensures |b| == |a| + 1 && Common(b, 0, |b|) && Changes(b) == Changes(a)
  {
    hide Changes;
    var k: nat :| Inserted(a, k, line, b);
    InsertedChanges(a, k, line, b);
  }

  method PushContext(hunk: Hunk, left: seq<string>, l: nat, prefix: nat)
    requires hunk.Valid() && hunk.Body() == [] && prefix <= l <= |left|
    requires !hunk.HasEdits()
    modifies hunk
    ensures hunk.Valid() && !hunk.HasEdits()
    ensures OldLines(hunk.Body()) == NewLines(hunk.Body()) == left[l - prefix..l]
    ensures |hunk.Body()| == prefix && Common(hunk.Body(), 0, prefix) && Changes(hunk.Body()) == 0
    ensures old(hunk.InOrder()) ==> hunk.InOrder()
  {
    hide OldLines, NewLines, Inserted, Common, Changes, Grouped;
    NothingPushed();
    for i: int := prefix downto 0
      invariant hunk.Valid() && !hunk.HasEdits()
      invariant OldLines(hunk.Body()) == NewLines(hunk.Body()) == left[l - prefix..l - i]
      invariant old(hunk.InOrder()) ==> hunk.InOrder()
      invariant |hunk.Body()| == prefix - i && Common(hunk.Body(), 0, prefix - i) && Changes(hunk.Body()) == 0
    {
      ghost var before := hunk.Body();
      hunk.PushLine(' ', left[l - (i + 1)]);
      PushedContext(before, Line(' ', left[l - (i + 1)]), hunk.Body());
      assert left[l - prefix..l - i] == left[l - prefix..l - (i + 1)] + [left[l - (i + 1)]];
    }
  }

  /** Takes edits into the hunk until enough lines after the last of them match, or the edits are over. */
  method CollectEdits(hunk: Hunk, edits: seq<EditType>, e0: nat, l0: nat, r0: nat,
                      left: seq<string>, right: seq<string>, context: nat)
    returns (e: nat, l: nat, r: nat, ghost tail: nat)
    requires hunk.Valid() && !hunk.HasEdits() && IsScript(edits, left, right) && Reached(edits, e0, l0, r0)
    requires e0 < |edits| ==> edits[e0] != Match
    requires |hunk.Body()| <= context && Common(hunk.Body(), 0, |hunk.Body()|) && Changes(hunk.Body()) == 0
    modifies hunk
    ensures hunk.Valid() && e0 <= e && l0 <= l <= |left| && r0 <= r <= |right| && Reached(edits, e, l, r)
    ensures OldLines(hunk.Body()) == old(OldLines(hunk.Body())) + left[l0..l]
    ensures NewLines(hunk.Body()) == old(NewLines(hunk.Body())) + right[r0..r]
    ensures hunk.HasEdits() <==> e > e0
    ensures context == 0 ==> e == e0
    ensures context > 0 && e0 < |edits| ==> e > e0
    ensures e < |edits| && e > e0 ==> FarFromNext(edits, e, context) && r >= context
    ensures e > e0 ==> Framed(hunk.Body(), context, |old(hunk.Body())|, tail) && tail <= context
    ensures e < |edits| && e > e0 ==> tail == context
    ensures Changes(hunk.Body()) + LinesChanged(edits[..e0]) == LinesChanged(edits[..e])
    ensures old(hunk.InOrder()) ==> hunk.InOrder()
  {
    hide OldLines, NewLines, LeftUsed, RightUsed, IsScript, Framed, Common, Changes, LinesChanged, Grouped;
    e, l, r := e0, l0, r0;
    ReachedWithin(edits, e, l, r, left, right);
    var suffix := 0;
    ghost var lead := |hunk.Body()|;
    while e < |edits|
      invariant hunk.Valid() && e0 <= e <= |edits| && l0 <= l <= |left| && r0 <= r <= |right|
      invariant Reached(edits, e, l, r)
      invariant OldLines(hunk.Body()) == old(OldLines(hunk.Body())) + left[l0..l]
      invariant NewLines(hunk.Body()) == old(NewLines(hunk.Body())) + right[r0..r]
      invariant hunk.HasEdits() <==> e > e0
      invariant e == e0 ==> suffix == 0
      invariant suffix <= r && (context == 0 ==> e == e0)
      invariant if e == e0 then |hunk.Body()| == lead && Common(hunk.Body(), 0, lead)
                else Framed(hunk.Body(), context, lead, suffix)
      invariant suffix <= context
                || (NextEdit(edits, e) < |edits| && suffix + NextEdit(edits, e) - e < 2 * context)
      invariant Changes(hunk.Body()) + LinesChanged(edits[..e0]) == LinesChanged(edits[..e])
      invariant old(hunk.InOrder()) ==> hunk.InOrder()
      decreases |edits| - e
    {
      if suffix >= context {
        var it := FindEdit(edits, e);
        if it == |edits| || it - e >= context {
          break;
        }
      }
      var edit := edits[e];
      AnEdit(edits, e, l, r, left, right);
      LinesChangedStep(edits, e);
      PushEdit(hunk, edit, left, l0, l, right, r0, r, context, lead, suffix);
      suffix := if edit == Match then suffix + 1 else 0;
      l := if edit != Add then l + 1 else l;
      r := if edit != Remove then r + 1 else r;
      e := e + 1;
    }
    tail := suffix;
  }

  /** What a further line makes of the frame. */
  lemma PushedFrame(a: seq<Line>, line: Line, b: seq<Line>, context: nat, lead: nat, tail: nat)
    requires exists k: nat :: Inserted(a, k, line, b)
    requires context > 0 && Framing(a, context, lead, tail)
    requires if line.tag == ' ' then Framed(a, context, lead, tail) else tail < 2 * context
    ensures Framed(b, context, lead, if line.tag == ' ' then tail + 1 else 0)
    ensures Changes(b) == Changes(a) + if line.tag == ' ' then 0 else 1
  {
    hide Framed, Framing, Changes;
    var k: nat :| Inserted(a, k, line, b);
    InsertedChanges(a, k, line, b);
    if line.tag == ' ' {
      assert b == a + [line];
      FramedCommon(a, line, context, lead, tail);
    } else {
      FramedChange(a, k, line, b, context, lead, tail);
    }
  }

  method PushEdit(hunk: Hunk, edit: EditType, left: seq<string>, ghost l0: nat, l: nat,
                  right: seq<string>, ghost r0: nat, r: nat, ghost context: nat, ghost lead: nat, ghost tail: nat)
    requires hunk.Valid() && Fits(edit, left, l, right, r) && l0 <= l <= |left| && r0 <= r <= |right|
    requires context > 0 && Framing(hunk.Body(), context, lead, tail)
    requires if edit == Match then Framed(hunk.Body(), context, lead, tail) else tail < 2 * context
    modifies hunk
    ensures hunk.Valid()
    ensures hunk.HasEdits() <==> old(hunk.HasEdits()) || edit != Match
    ensures forall a :: old(OldLines(hunk.Body())) == a + left[l0..l] ==>
              OldLines(hunk.Body()) == a + left[l0..if edit.TakesLeft() then l + 1 else l]
    ensures forall b :: old(NewLines(hunk.Body())) == b + right[r0..r] ==>
              NewLines(hunk.Body()) == b + right[r0..if edit.TakesRight() then r + 1 else r]
    ensures Framed(hunk.Body(), context, lead, if edit == Match then tail + 1 else 0)
    ensures old(hunk.InOrder()) ==> hunk.InOrder()
    ensures Changes(hunk.Body()) == old(Changes(hunk.Body()))
                                    + if edit == Match then 0 else if edit == Replace then 2 else 1
  {
    hide OldLines, NewLines, Inserted, Framed, Changes, Common, Grouped;
    ghost var before := hunk.Body();
    if edit == Match || edit == Remove || edit == Replace {
      hunk.PushLine(if edit == Match then ' ' else '-', left[l]);
      PushedFrame(before, Line(if edit == Match then ' ' else '-', left[l]), hunk.Body(), context, lead, tail);
      assert left[l0..l + 1] == left[l0..l] + [left[l]];
    }
    if edit == Add || edit == Replace {
      ghost var body := hunk.Body();
      hunk.PushLine('+', right[r]);
      PushedFrame(body, Line('+', right[r]), hunk.Body(), context, lead, if edit == Add then tail else 0);
    }
    assert edit.TakesRight() ==> right[r0..r + 1] == right[r0..r] + [right[r]];
  }

  method FindEdit(edits: seq<EditType>, e: nat) returns (it: nat)
    requires e <= |edits|
    ensures it == NextEdit(edits, e)
  {
    it := e;
    while it < |edits| && edits[it] == Match
      invariant e <= it <= |edits| && NextEdit(edits, it) == NextEdit(edits, e)
    {
      it := it + 1;
    }
  }

  /** A hunk whose body stands for `left[lc..l]` and `right[rc..r]` applies where the previous one, having come to
      `l0` and `r0`, is followed by equal lines. */
  lemma HunkApplies(left: seq<string>, right: seq<string>, hunk: Printed, l0: nat, r0: nat, lc: nat, rc: nat,
                    l: nat, r: nat)
    requires l0 <= lc <= l <= |left| && r0 <= rc <= r <= |right| && left[l0..lc] == right[r0..rc]
    requires OldLines(hunk.body) == left[lc..l] && NewLines(hunk.body) == right[rc..r]
    requires hunk.left.Some? || hunk.right.Some?
    requires hunk.left.Some? ==> hunk.left.value == Extent(lc + 1, l - lc)
    requires hunk.right.Some? ==> hunk.right.value == Extent(rc + 1, r - rc)
    ensures Apply(left, Progress(l0, right[..r0]), hunk) == Some(Progress(l, right[..r]))
  {
    hide OldLines, NewLines;
    assert |left[l0..lc]| == |right[r0..rc]|;
    assert right[..r] == right[..r0] + right[r0..rc] + right[rc..r];
  }

  lemma AppendHunk(left: seq<string>, hunks: seq<Printed>, hunk: Printed, p: Progress)
    requires ApplyAll(left, hunks) == Some(p)
    ensures ApplyAll(left, hunks + [hunk]) == Apply(left, p, hunk)
  {
    assert (hunks + [hunk])[..|hunks|] == hunks;
  }

  lemma SliceOfSlice(s: seq<string>, a: nat, n: nat, i: nat, j: nat)
    requires a + n <= |s| && i <= j <= n
    ensures s[a + i..a + j] == s[a..a + n][i..j]
  {
    var whole := s[a..a + n];
    forall k | 0 <= k < j - i ensures s[a + i..a + j][k] == whole[i..j][k] {
      assert whole[i..j][k] == whole[i + k];
    }
  }

  lemma ContextIsShared(left: seq<string>, right: seq<string>, l0: nat, r0: nat, n: nat, prefix: nat)
    requires l0 + n <= |left| && r0 + n <= |right| && left[l0..l0 + n] == right[r0..r0 + n] && prefix <= n
    ensures left[l0 + n - prefix..l0 + n] == right[r0 + n - prefix..r0 + n]
    ensures left[l0..l0 + n - prefix] == right[r0..r0 + n - prefix]
  {
    SliceOfSlice(left, l0, n, n - prefix, n);
    SliceOfSlice(right, r0, n, n - prefix, n);
    SliceOfSlice(left, l0, n, 0, n - prefix);
    SliceOfSlice(right, r0, n, 0, n - prefix);
  }

  /** After the last hunk only equal lines are left. */
  lemma RestIsEqual(left: seq<string>, right: seq<string>, hunks: seq<Printed>, l: nat, r: nat)
    requires l <= |left| && r <= |right| && ApplyAll(left, hunks) == Some(Progress(l, right[..r]))
    requires left[l..] == right[r..]
    ensures Patch(left, hunks) == Some(right)
  {
    assert right == right[..r] + right[r..];
  }

  /** A hunk shows removed lines before added ones, the sides that change in its header, and as much context as it may:
      `lead` and `tail` common lines, fewer than `context` only at the start and the end of the texts. */
  ghost predicate FramedAs(hunk: Printed, context: nat, lead: nat, tail: nat, leftSize: nat, rightSize: nat) {
    && lead <= context && tail <= context && Framed(hunk.body, context, lead, tail) && Grouped(hunk.body)
    && (hunk.left.Some? <==> |NewLines(hunk.body)| < |hunk.body|)
    && (hunk.right.Some? <==> |OldLines(hunk.body)| < |hunk.body|)
    && (lead < context ==>
          (hunk.left.Some? ==> hunk.left.value.start == 1) && (hunk.right.Some? ==> hunk.right.value.start == 1))
    && (tail < context ==>
          && (hunk.left.Some? ==> hunk.left.value.start - 1 + hunk.left.value.length == leftSize)
          && (hunk.right.Some? ==> hunk.right.value.start - 1 + hunk.right.value.length == rightSize))
  }

  ghost predicate Fitting(hunk: Printed, context: nat, leftSize: nat, rightSize: nat) {
    exists lead: nat, tail: nat :: FramedAs(hunk, context, lead, tail, leftSize, rightSize)
  }

  /** How many removed and added lines the hunks show. */
  function AllChanges(hunks: seq<Printed>): nat {
    if hunks == [] then 0 else AllChanges(hunks[..|hunks| - 1]) + Changes(hunks[|hunks| - 1].body)
  }

  /** The hunks show the edits before `e`, each line once, in frames that are neither too small nor too large. */
  ghost predicate Shown(hunks: seq<Printed>, edits: seq<EditType>, e: nat, context: nat, leftSize: nat, rightSize: nat)
  {
    && e <= |edits| && AllChanges(hunks) == LinesChanged(edits[..e])
    && forall h | h in hunks :: Fitting(h, context, leftSize, rightSize)
  }

  lemma ShownAtStart(edits: seq<EditType>, context: nat, leftSize: nat, rightSize: nat)
    ensures Shown([], edits, 0, context, leftSize, rightSize)
  {
    assert edits[..0] == [];
  }

  lemma ShownAtEnd(hunks: seq<Printed>, edits: seq<EditType>, e: nat, context: nat, leftSize: nat, rightSize: nat)
    requires Shown(hunks, edits, e, context, leftSize, rightSize) && OnlyMatches(edits, e, |edits|)
    ensures Shown(hunks, edits, |edits|, context, leftSize, rightSize) && AllChanges(hunks) == LinesChanged(edits)
  {
    hide Fitting, LinesChanged, AllChanges;
    MatchesChangeNothing(edits, e, |edits|);
    assert edits[..|edits|] == edits;
  }

  lemma ShownAfterHunk(hunks: seq<Printed>, edits: seq<EditType>, e: nat, e1: nat, e2: nat, context: nat,
                       leftSize: nat, rightSize: nat, hunk: Printed, lead: nat, tail: nat)
    requires Shown(hunks, edits, e, context, leftSize, rightSize) && e <= e1 <= e2 <= |edits|
    requires OnlyMatches(edits, e, e1) && FramedAs(hunk, context, lead, tail, leftSize, rightSize)
    requires Changes(hunk.body) + LinesChanged(edits[..e1]) == LinesChanged(edits[..e2])
    ensures Shown(hunks + [hunk], edits, e2, context, leftSize, rightSize)
  {
    hide FramedAs, LinesChanged, Changes;
    MatchesChangeNothing(edits, e, e1);
    assert (hunks + [hunk])[..|hunks|] == hunks;
    assert Fitting(hunk, context, leftSize, rightSize);
  }

  /** Where the outer loop stands: the hunks so far bring `left` up to here, and the next edit is far enough away for
      the next hunk not to overlap them. */
  ghost predicate Standing(left: seq<string>, right: seq<string>, edits: seq<EditType>, context: nat,
                           hunks: seq<Printed>, e: nat, l: nat, r: nat)
  {
    && IsScript(edits, left, right) && Reached(edits, e, l, r) && l <= |left| && r <= |right|
    && ApplyAll(left, hunks) == Some(Progress(l, right[..r]))
    && (if e == 0 then hunks == [] && l == 0 && r == 0
        else e == |edits| || (r >= context && FarFromNext(edits, e, context)))
  }

  lemma StandingAtStart(left: seq<string>, right: seq<string>, edits: seq<EditType>, context: nat)
    requires IsScript(edits, left, right)
    ensures Standing(left, right, edits, context, [], 0, 0, 0)
  {
    assert edits[..0] == [];
  }

  /** No edit is left. */
  lemma StandingAtEnd(left: seq<string>, right: seq<string>, edits: seq<EditType>, context: nat,
                      hunks: seq<Printed>, e: nat, l: nat, r: nat)
    requires Standing(left, right, edits, context, hunks, e, l, r) && OnlyMatches(edits, e, |edits|)
    ensures Patch(left, hunks) == Some(right)
  {
    hide IsScript, LeftUsed, RightUsed, ApplyAll, NextEdit, Patch;
    var n := |edits| - e;
    MatchRun(edits, e, l, r, |edits|, left, right);
    ReachedWithin(edits, |edits|, l + n, r + n, left, right);
    assert left[l..] == left[l..l + n] && right[r..] == right[r..r + n];
    RestIsEqual(left, right, hunks, l, r);
  }

  /** The place of the next hunk: its edits start after `n` equal lines, of which it takes some for its context. */
  lemma StandingAtNext(left: seq<string>, right: seq<string>, edits: seq<EditType>, context: nat,
                       hunks: seq<Printed>, e: nat, l: nat, r: nat, e1: nat, prefix: nat)
    requires Standing(left, right, edits, context, hunks, e, l, r) && e < |edits| && e1 == NextEdit(edits, e)
    requires prefix == if l + (e1 - e) < context then l + (e1 - e) else context
    ensures Reached(edits, e1, l + (e1 - e), r + (e1 - e))
    ensures l + (e1 - e) <= |left| && prefix <= r + (e1 - e) <= |right|
    ensures left[l..l + (e1 - e)] == right[r..r + (e1 - e)]
    ensures e1 < |edits| ==> prefix <= e1 - e
    ensures e1 < |edits| && prefix < context ==> l == r == 0
  {
    hide IsScript, LeftUsed, RightUsed, ApplyAll;
    MatchRun(edits, e, l, r, e1, left, right);
  }

  lemma Joined(s: seq<string>, a: nat, b: nat, c: nat)
    requires a <= b <= c <= |s|
    ensures s[a..b] + s[b..c] == s[a..c]
  {
  }

  lemma StandingAfterHunk(left: seq<string>, right: seq<string>, edits: seq<EditType>, context: nat,
                          hunks: seq<Printed>, e: nat, l: nat, r: nat, e1: nat, prefix: nat, hunk: Printed,
                          e2: nat, l2: nat, r2: nat)
    requires Standing(left, right, edits, context, hunks, e, l, r)
    requires e <= e1 == NextEdit(edits, e) && prefix <= e1 - e && Reached(edits, e2, l2, r2) && e2 > e1
    requires l + (e1 - e) <= l2 <= |left| && r + (e1 - e) <= r2 <= |right|
    requires left[l..l + (e1 - e)] == right[r..r + (e1 - e)]
    requires hunk.left.Some? || hunk.right.Some?
    requires OldLines(hunk.body) == left[l + (e1 - e) - prefix..l + (e1 - e)] + left[l + (e1 - e)..l2]
    requires NewLines(hunk.body) == left[l + (e1 - e) - prefix..l + (e1 - e)] + right[r + (e1 - e)..r2]
    requires hunk.left.Some? ==> hunk.left.value == Extent(l + (e1 - e) - prefix + 1, |OldLines(hunk.body)|)
    requires hunk.right.Some? ==> hunk.right.value == Extent(r + (e1 - e) - prefix + 1, |NewLines(hunk.body)|)
    requires e2 == |edits| || (FarFromNext(edits, e2, context) && r2 >= context)
    ensures Standing(left, right, edits, context, hunks + [hunk], e2, l2, r2)
  {
    hide IsScript, LeftUsed, RightUsed, OldLines, NewLines, Apply, ApplyAll, NextEdit, FarFromNext;
    var n, l1, r1 := e1 - e, l + (e1 - e), r + (e1 - e);
    ContextIsShared(left, right, l, r, n, prefix);
    Joined(left, l1 - prefix, l1, l2);
    Joined(right, r1 - prefix, r1, r2);
    HunkApplies(left, right, hunk, l, r, l1 - prefix, r1 - prefix, l2, r2);
    AppendHunk(left, hunks, hunk, Progress(l, right[..r]));
  }

  lemma EmptyDiffPatchesEqualTexts(left: seq<string>, right: seq<string>)
    ensures Patch(left, []) == Some(right) <==> left == right
  {
    assert [] + left[0..] == left;
  }

  /** The diff, as the list of its hunks. Applied as a patch it turns `left` into `right`, showing no more lines removed
      and added than the edits ask for, and no more common lines than the context does; unless the context is 0: then
      there are no hunks at all. */
  method CreateUnifiedDiff(left: seq<string>, right: seq<string>, context: nat) returns (hunks: seq<Printed>)
    ensures Patch(left, hunks) == Some(right) <==> context > 0 || left == right
    ensures context == 0 ==> hunks == []
    ensures context > 0 ==> AllChanges(hunks) == LinesChanged(Path(left, right, |left|, |right|))
    ensures forall h | h in hunks :: Fitting(h, context, |left|, |right|)
  {
    hide IsScript, LeftUsed, RightUsed, OldLines, NewLines, Apply, ApplyAll, Patch, Standing, FarFromNext, Fitting,
         LinesChanged, AllChanges, Path;
    var edits := EditsOfLines(left, right);
    var e: nat, l: nat, r: nat := 0, 0, 0;
    hunks := [];
    EmptyDiffPatchesEqualTexts(left, right);
    StandingAtStart(left, right, edits, context);
    ShownAtStart(edits, context, |left|, |right|);
    while e < |edits|
      invariant e <= |edits| && Standing(left, right, edits, context, hunks, e, l, r)
      invariant context == 0 ==> e == 0 && hunks == []
      invariant Shown(hunks, edits, e, context, |left|, |right|)
      decreases |edits| - e
    {
      var more;
      more, hunks, e, l, r := NextHunk(left, right, edits, context, hunks, e, l, r);
      if !more {
        return;
      }
    }
    StandingAtEnd(left, right, edits, context, hunks, e, l, r);
    ShownAtEnd(hunks, edits, e, context, |left|, |right|);
  }

  /** One round: skips matches, collects a hunk, and adds it to the others; `more` is false if it has no edits. */
  method NextHunk(left: seq<string>, right: seq<string>, edits: seq<EditType>, context: nat,
                  before: seq<Printed>, e: nat, l: nat, r: nat)
    returns (more: bool, hunks: seq<Printed>, e': nat, l': nat, r': nat)
    requires e < |edits| && Standing(left, right, edits, context, before, e, l, r)
    requires Shown(before, edits, e, context, |left|, |right|)
    ensures context == 0 ==> !more
    ensures more ==> e < e' <= |edits| && Standing(left, right, edits, context, hunks, e', l', r')
    ensures more ==> Shown(hunks, edits, e', context, |left|, |right|)
    ensures !more ==> hunks == before && (context > 0 ==> Patch(left, hunks) == Some(right))
    ensures !more && context > 0 ==> AllChanges(hunks) == LinesChanged(edits)
  {
    hide LeftUsed, RightUsed, OldLines, NewLines, Apply, ApplyAll, Patch, Standing, FarFromNext, IsScript, Shown,
         Framed, FramedAs, Common, Changes, LinesChanged, AllChanges, NextEdit, OnlyMatches, Grouped;
    var e1 := FindEdit(edits, e);
    UpToNextEdit(edits, e);
    var n := e1 - e;
    var prefix := if l + n < context then l + n else context;
    StandingAtNext(left, right, edits, context, before, e, l, r, e1, prefix);
    var hunk := new Hunk(l + n - prefix + 1, r + n - prefix + 1);
    StandingIsScript(left, right, edits, context, before, e, l, r);
    PushContext(hunk, left, l + n, prefix);
    ghost var tail;
    e', l', r', tail := CollectEdits(hunk, edits, e1, l + n, r + n, left, right, context);
    if !hunk.HasEdits() {
      if context > 0 {
        StandingAtEnd(left, right, edits, context, before, e, l, r);
        ShownAtEnd(before, edits, e, context, |left|, |right|);
      }
      return false, before, e', l', r';
    }
    var printed := hunk.Print();
    hide Grouped, Common;
    StandingAfterHunk(left, right, edits, context, before, e, l, r, e1, prefix, printed, e', l', r');
    ReachedWithin(edits, e', l', r', left, right);
    PrintedFrame(printed, context, prefix, tail, l + n, r + n, l', r', |left|, |right|);
    ShownAfterHunk(before, edits, e, e1, e', context, |left|, |right|, printed, prefix, tail);
    return true, before + [printed], e', l', r';
  }

  lemma UpToNextEdit(edits: seq<EditType>, e: nat)
    requires e <= |edits|
    ensures OnlyMatches(edits, e, NextEdit(edits, e))
  {
  }

  lemma PrintedFrame(hunk: Printed, context: nat, lead: nat, tail: nat, l: nat, r: nat, l': nat, r': nat,
                     leftSize: nat, rightSize: nat)
    requires Framed(hunk.body, context, lead, tail) && Grouped(hunk.body)
    requires lead <= context && tail <= context && lead <= l && lead <= r
    requires |OldLines(hunk.body)| == lead + l' - l && |NewLines(hunk.body)| == lead + r' - r
    requires hunk.left.Some? ==> hunk.left.value == Extent(l - lead + 1, |OldLines(hunk.body)|)
    requires hunk.right.Some? ==> hunk.right.value == Extent(r - lead + 1, |NewLines(hunk.body)|)
    requires hunk.left.Some? <==> |NewLines(hunk.body)| < |hunk.body|
    requires hunk.right.Some? <==> |OldLines(hunk.body)| < |hunk.body|
    requires lead < context ==> l == r == lead
    requires tail < context ==> l' == leftSize && r' == rightSize
    ensures FramedAs(hunk, context, lead, tail, leftSize, rightSize)
  {
    hide OldLines, NewLines, Framed, Grouped;
  }

  lemma StandingIsScript(left: seq<string>, right: seq<string>, edits: seq<EditType>, context: nat,
                         hunks: seq<Printed>, e: nat, l: nat, r: nat)
    requires Standing(left, right, edits, context, hunks, e, l, r)
    ensures IsScript(edits, left, right) && Reached(edits, e, l, r)
  {
  }
}
