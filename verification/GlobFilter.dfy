/** Test selection by name: a glob matcher that restarts only from the latest star, and the filter built on it. */
module GlobFilter {

  // ----- what a pattern means

  ghost predicate Matches(pattern: string, name: string)
    decreases |pattern|
  {
    if pattern == "" then name == ""
    else if pattern[0] == '*' then exists k | 0 <= k <= |name| :: Matches(pattern[1..], name[k..])
    else name != "" && (pattern[0] == '?' || pattern[0] == name[0]) && Matches(pattern[1..], name[1..])
  }

  predicate IsWild(c: char) {
    c == '*' || c == '?'
  }

  predicate IsGlobPattern(pattern: string) {
    exists i | 0 <= i < |pattern| :: IsWild(pattern[i])
  }

  /** A pattern without wildcards matches itself and nothing else. */
  lemma {:induction false} LiteralMatchesItself(pattern: string, name: string)
    requires !IsGlobPattern(pattern)
    ensures Matches(pattern, name) <==> name == pattern
  {
    if pattern != "" {
      assert !IsWild(pattern[0]);
      assert !IsGlobPattern(pattern[1..]) by {
        forall i | 0 <= i < |pattern[1..]| ensures !IsWild(pattern[1..][i]) {
          assert !IsWild(pattern[i + 1]);
        }
      }
      if name != "" {
        LiteralMatchesItself(pattern[1..], name[1..]);
        assert name == [name[0]] + name[1..] && pattern == [pattern[0]] + pattern[1..];
      }
    }
  }

  /** A star stands for any text, a question mark for any one character, every other character for itself. */
  lemma CharactersMean(c: char, name: string)
    ensures Matches([c], name) <==> if c == '*' then true else if c == '?' then |name| == 1 else name == [c]
  {
    assert [c][1..] == "" && name[|name|..] == "";
    assert Matches([c][1..], name[|name|..]);
    if name != "" { assert name == [name[0]] + name[1..]; }
  }

  /** A pattern after a pattern matches what the one matches followed by what the other does. */
  lemma {:induction false} PatternConcat(a: string, b: string, name: string)
    ensures Matches(a + b, name) <==> exists k | 0 <= k <= |name| :: Matches(a, name[..k]) && Matches(b, name[k..])
    decreases |a|
  {
    if a == "" {
      assert a + b == b && name[0..] == name && Matches(a, name[..0]);
    } else {
      assert (a + b)[0] == a[0] && (a + b)[1..] == a[1..] + b;
      if Matches(a + b, name) { ConcatSplits(a, b, name); }
      if k :| 0 <= k <= |name| && Matches(a, name[..k]) && Matches(b, name[k..]) { ConcatJoins(a, b, name, k); }
    }
  }

  lemma {:induction false} ConcatSplits(a: string, b: string, name: string)
    requires a != "" && Matches(a + b, name)
    ensures exists k | 0 <= k <= |name| :: Matches(a, name[..k]) && Matches(b, name[k..])
    decreases |a|, 0
  {
    assert (a + b)[0] == a[0] && (a + b)[1..] == a[1..] + b;
    var i := if a[0] == '*' then var i :| 0 <= i <= |name| && Matches(a[1..] + b, name[i..]); i else 1;
    PatternConcat(a[1..], b, name[i..]);
    var j :| 0 <= j <= |name[i..]| && Matches(a[1..], name[i..][..j]) && Matches(b, name[i..][j..]);
    assert name[..i + j][i..] == name[i..][..j] && name[i + j..] == name[i..][j..];
    assert Matches(a, name[..i + j]);
  }

  lemma {:induction false} ConcatJoins(a: string, b: string, name: string, k: nat)
    requires a != "" && k <= |name| && Matches(a, name[..k]) && Matches(b, name[k..])
    ensures Matches(a + b, name)
    decreases |a|, 0
  {
    assert (a + b)[0] == a[0] && (a + b)[1..] == a[1..] + b;
    var i := if a[0] == '*' then var i :| 0 <= i <= k && Matches(a[1..], name[..k][i..]); i else 1;
    assert name[..k][i..] == name[i..][..k - i] && name[k..] == name[i..][k - i..];
    PatternConcat(a[1..], b, name[i..]);
  }

  // ----- the matcher

  /** The rest of the pattern from `i` matches the rest of the name from `j`. */
  ghost predicate From(pattern: string, name: string, i: nat, j: nat)
    requires i <= |pattern| && j <= |name|
  {
    Matches(pattern[i..], name[j..])
  }

  lemma FromStar(pattern: string, name: string, i: nat, j: nat, rest: nat)
    requires rest == i + 1 <= |pattern| && j <= |name| && pattern[i] == '*'
    ensures From(pattern, name, i, j) <==> exists k: nat | j <= k <= |name| :: From(pattern, name, rest, k)
  {
    assert pattern[i..][1..] == pattern[rest..];
    if From(pattern, name, i, j) {
      var k :| 0 <= k <= |name[j..]| && Matches(pattern[i..][1..], name[j..][k..]);
      assert name[j..][k..] == name[j + k..];
      assert From(pattern, name, rest, j + k);
    }
    forall k: nat | j <= k <= |name| && From(pattern, name, rest, k) ensures From(pattern, name, i, j) {
      assert name[j..][k - j..] == name[k..];
    }
  }

  /** A star takes no character, or one and stays. */
  lemma FromStarStep(pattern: string, name: string, i: nat, j: nat)
    requires i < |pattern| && j <= |name| && pattern[i] == '*'
    ensures From(pattern, name, i, j) <==>
            From(pattern, name, i + 1, j) || (j < |name| && From(pattern, name, i, j + 1))
  {
    FromStar(pattern, name, i, j, i + 1);
    if j < |name| { FromStar(pattern, name, i, j + 1, i + 1); }
  }

  lemma FromChar(pattern: string, name: string, i: nat, j: nat)
    requires i < |pattern| && j <= |name| && pattern[i] != '*'
    ensures From(pattern, name, i, j) <==>
            j < |name| && (pattern[i] == '?' || pattern[i] == name[j]) && From(pattern, name, i + 1, j + 1)
  {
    assert pattern[i..][1..] == pattern[i + 1..];
    if j < |name| { assert name[j..][1..] == name[j + 1..]; }
  }

  ghost predicate Starless(pattern: string, a: nat, b: nat) {
    forall x | a <= x < b <= |pattern| :: pattern[x] != '*'
  }

  /** A stretch without stars consumes one character per pattern character. */
  lemma {:induction false} StarlessAdvance(pattern: string, name: string, a: nat, b: nat, k: nat)
    requires a <= b <= |pattern| && k <= |name| && Starless(pattern, a, b) && From(pattern, name, a, k)
    ensures k + (b - a) <= |name| && From(pattern, name, b, k + (b - a))
    decreases b - a
  {
    if a < b {
      FromChar(pattern, name, a, k);
      StarlessAdvance(pattern, name, a + 1, b, k + 1);
    }
  }

  /** Restarting from the star at `at` with the name from `next` on is still to be tried. */
  ghost predicate Pending(pattern: string, name: string, at: nat, next: nat) {
    0 < next <= |name| && at <= |pattern| && From(pattern, name, at, next)
  }

  /** The latest star seen is at `at`; it has left all of the name before `next - 1` behind, and what follows it was
      matched character by character up to the present position. */
  ghost predicate Latest(pattern: string, i: nat, j: nat, at: nat, next: nat) {
    next > 0 ==>
      && at < |pattern| && pattern[at] == '*'
      && ((i == at && j == next) || (at < i && i - (at + 1) == j - (next - 1) && Starless(pattern, at + 1, i)))
  }

  /** Meeting a further star makes the older restart superfluous. */
  lemma NewerStarSuffices(pattern: string, name: string, i: nat, j: nat, at: nat, next: nat)
    requires i < |pattern| && j <= |name| && pattern[i] == '*'
    requires Latest(pattern, i, j, at, next) && Pending(pattern, name, at, next)
    ensures From(pattern, name, i, j)
  {
    if at < i {
      FromStar(pattern, name, at, next, at + 1);
      var rest := at + 1;
      var k: nat :| next <= k <= |name| && From(pattern, name, rest, k);
      StarlessAdvance(pattern, name, at + 1, i, k);
      FromStar(pattern, name, i, k + (i - (at + 1)), i + 1);
      FromStar(pattern, name, i, j, i + 1);
    }
  }

  method PatternMatchesString(name: string, pattern: string) returns (ok: bool)
    ensures ok <==> Matches(pattern, name)
  {
    var i, j, patternNext, nameNext := 0, 0, 0, 0;
    assert pattern[0..] == pattern && name[0..] == name;
    while i < |pattern| || j < |name|
      invariant 0 <= i <= |pattern| && 0 <= j <= |name|
      invariant 0 <= patternNext <= |pattern| && 0 <= nameNext <= |name| + 1
      invariant nameNext == 0 ==> patternNext == 0
      invariant Latest(pattern, i, j, patternNext, nameNext)
      invariant Matches(pattern, name) <==>
                From(pattern, name, i, j) || Pending(pattern, name, patternNext, nameNext)
      decreases |pattern| - patternNext, |name| + 1 - nameNext,
                if nameNext > 0 && i == patternNext then 0 else 1 + |pattern| - i
    {
      if i < |pattern| {
        if pattern[i] == '*' {
          FromStarStep(pattern, name, i, j);
          if Pending(pattern, name, patternNext, nameNext) {
            NewerStarSuffices(pattern, name, i, j, patternNext, nameNext);
          }
          patternNext := i;
          nameNext := j + 1;
          i := i + 1;
          continue;
        }
        FromChar(pattern, name, i, j);
        if j < |name| && (pattern[i] == '?' || name[j] == pattern[i]) {
          i := i + 1;
          j := j + 1;
          continue;
        }
      }
      assert !From(pattern, name, i, j);
      if 0 < nameNext <= |name| {
        i := patternNext;
        j := nameNext;
        continue;
      }
      return false;
    }
    return true;
  }

  // ----- splitting

  function Join(pieces: seq<string>, delimiter: char): string {
    if |pieces| == 0 then ""
    else if |pieces| == 1 then pieces[0]
    else pieces[0] + [delimiter] + Join(pieces[1..], delimiter)
  }

  /** The pieces hold no delimiter and rejoin to the text. */
  ghost predicate IsSplit(text: string, delimiter: char, pieces: seq<string>) {
    && |pieces| > 0
    && (forall i | 0 <= i < |pieces| :: delimiter !in pieces[i])
    && Join(pieces, delimiter) == text
  }

  lemma FirstPiece(text: string, delimiter: char, pieces: seq<string>)
    requires IsSplit(text, delimiter, pieces)
    ensures pieces[0] <= text
    ensures |pieces| == 1 <==> delimiter !in text
    ensures |pieces| == 1 ==> pieces[0] == text
    ensures |pieces| > 1 ==>
      |pieces[0]| < |text| && text[|pieces[0]|] == delimiter
      && IsSplit(text[|pieces[0]| + 1..], delimiter, pieces[1..])
  {
    if |pieces| > 1 {
      assert text == pieces[0] + [delimiter] + Join(pieces[1..], delimiter);
      assert text[|pieces[0]|] == delimiter;
    }
  }

  lemma OneFirstDelimiter(text: string, delimiter: char, a: nat, b: nat)
    requires a < |text| && text[a] == delimiter && delimiter !in text[..a]
    requires b < |text| && text[b] == delimiter && delimiter !in text[..b]
    ensures a == b
  {
    forall x | 0 <= x < a ensures text[x] != delimiter { assert text[..a][x] == text[x]; }
    forall x | 0 <= x < b ensures text[x] != delimiter { assert text[..b][x] == text[x]; }
  }

  /** A text has one split only. */
  lemma {:induction false} SplitIsUnique(text: string, delimiter: char, a: seq<string>, b: seq<string>)
    requires IsSplit(text, delimiter, a) && IsSplit(text, delimiter, b)
    ensures a == b
    decreases |text|
  {
    FirstPiece(text, delimiter, a);
    FirstPiece(text, delimiter, b);
    if |a| > 1 {
      assert a[0] == text[..|a[0]|] && b[0] == text[..|b[0]|];
      OneFirstDelimiter(text, delimiter, |a[0]|, |b[0]|);
      SplitIsUnique(text[|a[0]| + 1..], delimiter, a[1..], b[1..]);
      assert a == [a[0]] + a[1..] && b == [b[0]] + b[1..];
    }
  }

  lemma {:induction false} JoinAppend(pieces: seq<string>, last: string, delimiter: char)
    requires |pieces| > 0
    ensures Join(pieces + [last], delimiter) == Join(pieces, delimiter) + [delimiter] + last
  {
    if |pieces| == 1 {
      assert (pieces + [last])[1..] == [last];
    } else {
      JoinAppend(pieces[1..], last, delimiter);
      assert (pieces + [last])[1..] == pieces[1..] + [last];
    }
  }

  /** The place of the first delimiter at or after `from`, or the length of the text. */
  method Find(text: string, delimiter: char, from: nat) returns (at: nat)
    requires from <= |text|
    ensures from <= at <= |text| && delimiter !in text[from..at]
    ensures at < |text| ==> text[at] == delimiter
  {
    at := from;
    while at < |text| && text[at] != delimiter
      invariant from <= at <= |text| && delimiter !in text[from..at]
    {
      assert text[from..at + 1] == text[from..at] + [text[at]];
      at := at + 1;
    }
  }

  method SplitString(text: string, delimiter: char) returns (parsed: seq<string>)
    ensures IsSplit(text, delimiter, parsed)
  {
    parsed := [];
    var pos := 0;
    while true
      invariant 0 <= pos <= |text|
      invariant forall i | 0 <= i < |parsed| :: delimiter !in parsed[i]
      invariant if |parsed| == 0 then pos == 0 else text[..pos] == Join(parsed, delimiter) + [delimiter]
      decreases |text| - pos
    {
      var colon := Find(text, delimiter, pos);
      if |parsed| > 0 { JoinAppend(parsed, text[pos..colon], delimiter); }
      assert text[..colon] == text[..pos] + text[pos..colon];
      parsed := parsed + [text[pos..colon]];
      if colon == |text| {
        assert text[..colon] == text;
        break;
      }
      assert text[..colon + 1] == text[..colon] + [delimiter];
      pos := colon + 1;
    }
  }

  // ----- filters

  /** A name is in a `:`-separated list of patterns if some pattern matches it. */
  ghost predicate ListMatches(list: string, name: string) {
    exists pieces: seq<string> :: IsSplit(list, ':', pieces) && AnyMatches(pieces, name)
  }

  ghost predicate AnyMatches(patterns: seq<string>, name: string) {
    exists i | 0 <= i < |patterns| :: Matches(patterns[i], name)
  }

  /** Globs in a list, the other patterns in a set. A filter that was never given any pattern accepts nothing. */
  datatype UnitTestFilter = UnitTestFilter(globPatterns: seq<string>, exactPatterns: set<string>) {
    /** Holds the patterns of the list. */
    ghost predicate For(patterns: seq<string>) {
      && (forall g | g in globPatterns :: g in patterns)
      && (forall e | e in exactPatterns :: e in patterns && !IsGlobPattern(e))
      && (forall p | p in patterns :: if IsGlobPattern(p) then p in globPatterns else p in exactPatterns)
    }
  }

  const NO_FILTER := UnitTestFilter([], {})

  method MakeFilter(filter: string) returns (f: UnitTestFilter, ghost patterns: seq<string>)
    ensures IsSplit(filter, ':', patterns) && f.For(patterns)
  {
    var all := SplitString(filter, ':');
    patterns := all;
    var globs, exact := [], {};
    for i := 0 to |all|
      invariant UnitTestFilter(globs, exact).For(all[..i])
    {
      assert all[..i + 1] == all[..i] + [all[i]];
      if IsGlobPattern(all[i]) {
        globs := globs + [all[i]];
      } else {
        exact := exact + {all[i]};
      }
    }
    assert all[..|all|] == all;
    f := UnitTestFilter(globs, exact);
  }

  ghost predicate Accepts(f: UnitTestFilter, name: string) {
    name in f.exactPatterns || AnyMatches(f.globPatterns, name)
  }

  method MatchesName(f: UnitTestFilter, name: string) returns (ok: bool)
    ensures ok <==> Accepts(f, name)
  {
    if name in f.exactPatterns {
      return true;
    }
    for i := 0 to |f.globPatterns|
      invariant !AnyMatches(f.globPatterns[..i], name)
    {
      var hit := PatternMatchesString(name, f.globPatterns[i]);
      if hit { return true; }
    }
    assert f.globPatterns[..|f.globPatterns|] == f.globPatterns;
    return false;
  }

  /** Looking exact names up and trying only the globs decides whether any pattern of the list matches. */
  lemma FilterIsList(list: string, patterns: seq<string>, f: UnitTestFilter, name: string)
    requires IsSplit(list, ':', patterns) && f.For(patterns)
    ensures Accepts(f, name) <==> ListMatches(list, name)
  {
    if Accepts(f, name) {
      if name in f.exactPatterns {
        LiteralMatchesItself(name, name);
        var i :| 0 <= i < |patterns| && patterns[i] == name;
      } else {
        var g :| 0 <= g < |f.globPatterns| && Matches(f.globPatterns[g], name);
        assert f.globPatterns[g] in patterns;
        var i :| 0 <= i < |patterns| && patterns[i] == f.globPatterns[g];
      }
      assert AnyMatches(patterns, name);
    }
    if ListMatches(list, name) {
      var pieces :| IsSplit(list, ':', pieces) && AnyMatches(pieces, name);
      SplitIsUnique(list, ':', pieces, patterns);
      var i :| 0 <= i < |patterns| && Matches(patterns[i], name);
      assert patterns[i] in patterns;
      if !IsGlobPattern(patterns[i]) {
        LiteralMatchesItself(patterns[i], name);
      }
    }
  }

  const UNIVERSAL_FILTER := "*"

  /** The meaning of a whole filter: a list of wanted patterns and, after the first dash, a list of unwanted ones;
      nothing before that dash stands for everything. */
  ghost predicate Selected(filter: string, name: string) {
    if '-' !in filter then ListMatches(filter, name)
    else exists dash | 0 <= dash < |filter| ::
      && filter[dash] == '-' && '-' !in filter[..dash]
      && ListMatches(if dash == 0 then UNIVERSAL_FILTER else filter[..dash], name)
      && !ListMatches(filter[dash + 1..], name)
  }

  lemma EverythingMatchesStar(name: string)
    ensures ListMatches("*", name)
  {
    assert IsSplit("*", ':', ["*"]);
    assert name[|name|..] == "" && "*"[1..] == "";
    assert Matches(["*"][0], name);
    assert AnyMatches(["*"], name);
  }

  /** A filter that starts with a dash selects exactly the names its negative list does not match. */
  lemma NegativeFilter(filter: string, name: string)
    requires filter != "" && filter[0] == '-'
    ensures Selected(filter, name) <==> !ListMatches(filter[1..], name)
  {
    EverythingMatchesStar(name);
    assert '-' !in filter[..0];
    if Selected(filter, name) {
      var dash :| 0 <= dash < |filter| && filter[dash] == '-' && '-' !in filter[..dash]
                  && !ListMatches(filter[dash + 1..], name);
      OneFirstDelimiter(filter, '-', dash, 0);
    }
  }

  /** `positive` and `negative` together select what the text they were built from selects. */
  ghost predicate Faithful(filter: string, positive: UnitTestFilter, negative: UnitTestFilter) {
    forall name :: Selected(filter, name) <==> Accepts(positive, name) && !Accepts(negative, name)
  }

  method MakeFilters(filter: string) returns (positive: UnitTestFilter, negative: UnitTestFilter)
    ensures Faithful(filter, positive, negative)
  {
    var parts := SplitString(filter, '-');
    FirstPiece(filter, '-', parts);
    ghost var wanted, unwanted: seq<string>;
    if |parts| > 1 {
      var list := if parts[0] == "" then UNIVERSAL_FILTER else parts[0];
      positive, wanted := MakeFilter(list);
      var rest := parts[1];
      for i := 2 to |parts|
        invariant rest == Join(parts[1..i], '-')
      {
        JoinAppend(parts[1..i], parts[i], '-');
        assert parts[1..i + 1] == parts[1..i] + [parts[i]];
        rest := rest + "-" + parts[i];
      }
      assert parts[1..|parts|] == parts[1..];
      negative, unwanted := MakeFilter(rest);
      TwoLists(filter, parts, list, rest, wanted, unwanted, positive, negative);
    } else {
      positive, wanted := MakeFilter(parts[0]);
      negative := NO_FILTER;
      forall name ensures Selected(filter, name) <==> Accepts(positive, name) && !Accepts(negative, name) {
        FilterIsList(filter, wanted, positive, name);
      }
    }
  }

  lemma TwoLists(filter: string, parts: seq<string>, list: string, rest: string,
                 wanted: seq<string>, unwanted: seq<string>, positive: UnitTestFilter, negative: UnitTestFilter)
    requires IsSplit(filter, '-', parts) && |parts| > 1
    requires list == (if parts[0] == "" then UNIVERSAL_FILTER else parts[0]) && rest == Join(parts[1..], '-')
    requires IsSplit(list, ':', wanted) && positive.For(wanted)
    requires IsSplit(rest, ':', unwanted) && negative.For(unwanted)
    ensures Faithful(filter, positive, negative)
  {
    FirstPiece(filter, '-', parts);
    var dash := |parts[0]|;
    assert filter[..dash] == parts[0] && filter[dash + 1..] == rest;
    forall name ensures Selected(filter, name) <==> Accepts(positive, name) && !Accepts(negative, name) {
      FilterIsList(list, wanted, positive, name);
      FilterIsList(rest, unwanted, negative, name);
      forall other | 0 <= other < |filter| && filter[other] == '-' && '-' !in filter[..other] ensures other == dash {
        OneFirstDelimiter(filter, '-', other, dash);
      }
    }
  }

  /** Whether a test runs: its full name is in the positive list and not in the negative one. */
  method MatchesTest(filter: string, suite: string, test: string) returns (ok: bool)
    ensures ok <==> Selected(filter, suite + "." + test)
  {
    var positive, negative := MakeFilters(filter);
    var wanted := MatchesName(positive, suite + "." + test);
    var unwanted := MatchesName(negative, suite + "." + test);
    return wanted && !unwanted;
  }
}
