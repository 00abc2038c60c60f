/** The recursive matcher of the simple regular expressions, and the class that uses it. */
module RegexMatcher {
  import opened SimpleRegex

  /** The largest repetition count the matcher tries, and the longest string it is defined for. */
  const MAX_COUNT: nat := 0xFFFF_FFFF_FFFF_FFFE

  /** Some number of `item`, then the rest at the head of what is left. */
  ghost predicate HeadAfter(item: Item, items: seq<Item>, dollar: bool, s: string) {
    exists k | 0 <= k <= |s| :: Repeated(item, s[..k]) && MatchesHead(items, dollar, s[k..])
  }

  lemma HeadOfItems(items: seq<Item>, dollar: bool, s: string)
    requires items != []
    ensures MatchesHead(items, dollar, s) <==> HeadAfter(items[0], items[1..], dollar, s)
  {
    if MatchesHead(items, dollar, s) {
      var n :| 0 <= n <= |s| && InLanguage(items, s[..n]) && (dollar ==> n == |s|);
      var k :| 0 <= k <= n && Repeated(items[0], s[..n][..k]) && InLanguage(items[1..], s[..n][k..]);
      assert s[..n][..k] == s[..k] && s[..n][k..] == s[k..][..n - k];
      assert MatchesHead(items[1..], dollar, s[k..]);
    }
    if HeadAfter(items[0], items[1..], dollar, s) {
      var k :| 0 <= k <= |s| && Repeated(items[0], s[..k]) && MatchesHead(items[1..], dollar, s[k..]);
      var m :| 0 <= m <= |s[k..]| && InLanguage(items[1..], s[k..][..m]) && (dollar ==> m == |s[k..]|);
      var n := k + m;
      assert s[..n][..k] == s[..k] && s[..n][k..] == s[k..][..m];
      assert InLanguage(items, s[..n]);
    }
  }

  lemma HeadOfNothing(dollar: bool, s: string)
    ensures MatchesHead([], dollar, s) <==> (dollar ==> s == "")
  {
    assert s[..0] == "";
    assert InLanguage([], s[..0]);
  }

  /** A single item takes exactly the first character. */
  lemma HeadAfterOnce(item: Item, items: seq<Item>, dollar: bool, s: string)
    requires item.rep == Once
    ensures HeadAfter(item, items, dollar, s) <==>
            s != "" && item.Matches(s[0]) && MatchesHead(items, dollar, s[1..])
  {
    if s != "" {
      assert Repeated(item, s[..1]) <==> item.Matches(s[0]);
    }
  }

  /** The text of an item from its character on, before a text that does not start with a repetition. */
  lemma AtomAndRepeat(c: char, rep: Repeat, rest: string)
    requires !IsRepeat(At(rest, 0))
    ensures var t := [c] + rep.Text() + rest;
            && t[0] == c
            && (IsRepeat(At(t, 1)) <==> rep != Once)
            && (IsRepeat(At(t, 1)) ==> RepeatOf(t[1]) == rep && t[2..] == rest)
            && (!IsRepeat(At(t, 1)) ==> t[1..] == rest)
  {
    var t := [c] + rep.Text() + rest;
    assert rep == Once ==> t[1..] == rest;
    assert rep != Once ==> t[1] == rep.Text()[0] && t[2..] == rest;
  }

  /** What the first characters of a text say about its first item. */
  lemma FirstItem(items: seq<Item>, dollar: bool)
    requires items != [] && AllValid(items)
    ensures var text, item := TextOf(items, dollar), items[0];
            && text != "" && (text[0] == '\\' <==> item.escaped) && text[0] != NUL && text[0] != '$'
    ensures var t, item := FromAtom(items, dollar), items[0];
            && t != "" && t[0] == item.c
            && (IsRepeat(At(t, 1)) <==> item.rep != Once)
            && (IsRepeat(At(t, 1)) ==> RepeatOf(t[1]) == item.rep && t[2..] == TextOf(items[1..], dollar))
            && (!IsRepeat(At(t, 1)) ==> t[1..] == TextOf(items[1..], dollar))
  {
    hide IsAsciiPunct, IsValidEscape, IsRepeat, RepeatOf;
    RestDoesNotRepeat(items[1..], dollar);
    AtomAndRepeat(items[0].c, items[0].rep, TextOf(items[1..], dollar));
    TextFromAtom(items, dollar);
    assert items[0].Valid();
  }

  lemma TextFromAtom(items: seq<Item>, dollar: bool)
    requires items != []
    ensures FromAtom(items, dollar) == [items[0].c] + items[0].rep.Text() + TextOf(items[1..], dollar)
    ensures TextOf(items, dollar) == (if items[0].escaped then "\\" else "") + FromAtom(items, dollar)
  {
    var item, rest := items[0], TextOf(items[1..], dollar);
    var t := [item.c] + item.rep.Text() + rest;
    assert TextOf(items, dollar) == (if item.escaped then "\\" else "") + t;
    assert item.escaped ==> TextOf(items, dollar)[1..] == t;
  }

  /** A text without the backslash of its first item. */
  function FromAtom(items: seq<Item>, dollar: bool): string
    requires items != []
  {
    if items[0].escaped then TextOf(items, dollar)[1..] else TextOf(items, dollar)
  }

  lemma RestDoesNotRepeat(items: seq<Item>, dollar: bool)
    requires AllValid(items)
    ensures !IsRepeat(At(TextOf(items, dollar), 0))
  {
    if items != [] {
      assert items[0].Valid();
    }
  }

  /** `items` and `dollar` are what `regex` stands for. */
  ghost predicate StandsFor(regex: string, items: seq<Item>, dollar: bool) {
    AllValid(items) && regex == TextOf(items, dollar)
  }

  method MatchRepetitionAndRegexAtHead(escaped: bool, c: char, repeat: char, regex: CString, str: CString,
                                       ghost items: seq<Item>, ghost dollar: bool) returns (ok: bool)
    requires IsRepeat(repeat) && StandsFor(regex, items, dollar) && |str| <= MAX_COUNT
    ensures ok <==> HeadAfter(Item(escaped, c, RepeatOf(repeat)), items, dollar, str)
    decreases |regex|, 1
  {
    var minCount := if repeat == '+' then 1 else 0;
    var maxCount := if repeat == '?' then 1 else MAX_COUNT;
    ghost var item := Item(escaped, c, RepeatOf(repeat));
    var i := 0;
    while i <= maxCount
      invariant 0 <= i <= maxCount + 1 && i <= |str|
      invariant forall j | 0 <= j < i :: item.Matches(str[j])
      invariant forall k | 0 <= k < i :: !(Repeated(item, str[..k]) && MatchesHead(items, dollar, str[k..]))
      decreases |str| - i
    {
      if i >= minCount {
        var rest := MatchRegexAtHead(regex, str[i..], items, dollar);
        if rest {
          assert Repeated(item, str[..i]);
          return true;
        }
      }
      if At(str, i) == NUL || !AtomMatchesChar(escaped, c, str[i]) {
        NoFurther(item, str, i);
        return false;
      }
      i := i + 1;
    }
    return false;
  }

  lemma NoFurther(item: Item, str: string, i: nat)
    requires i <= |str| && (i < |str| ==> !item.Matches(str[i]))
    ensures forall k | i < k <= |str| :: !Repeated(item, str[..k])
  {
    forall k | i < k <= |str| ensures !Repeated(item, str[..k]) {
      assert str[..k][i] == str[i];
    }
  }

  method MatchRegexAtHead(regex: CString, str: CString, ghost items: seq<Item>, ghost dollar: bool)
    returns (ok: bool)
    requires StandsFor(regex, items, dollar) && |str| <= MAX_COUNT
    ensures ok <==> MatchesHead(items, dollar, str)
    decreases |regex|, 0
  {
    if items == [] { HeadOfNothing(dollar, str); } else { FirstItem(items, dollar); }
    if At(regex, 0) == NUL {
      return true;
    }
    if At(regex, 0) == '$' {
      return At(str, 0) == NUL;
    }
    HeadOfItems(items, dollar, str);
    var escaped := At(regex, 0) == '\\';
    var here: CString := if escaped then regex[1..] else regex;
    if IsRepeat(At(here, 1)) {
      ok := MatchRepetitionAndRegexAtHead(escaped, here[0], here[1], here[2..], str, items[1..], dollar);
    } else {
      HeadAfterOnce(items[0], items[1..], dollar, str);
      if At(str, 0) != NUL && AtomMatchesChar(escaped, here[0], str[0]) {
        ok := MatchRegexAtHead(here[1..], str[1..], items[1..], dollar);
      } else {
        ok := false;
      }
    }
  }

  /** Whether the text starts with a caret, and what is left without it. */
  lemma CaretInText(re: Regex)
    requires re.Valid()
    ensures At(re.Text(), 0) == '^' <==> re.caret
    ensures re.caret ==> re.Text()[1..] == TextOf(re.items, re.dollar)
    ensures !re.caret ==> re.Text() == TextOf(re.items, re.dollar)
  {
    hide TextOf;
    FirstIsNotCaret(re);
    CaretOrNot(re);
  }

  lemma FoundAt(re: Regex, s: string)
    ensures re.caret ==> (Finds(re, s) <==> MatchesHead(re.items, re.dollar, s))
    ensures !re.caret ==> (Finds(re, s) <==> exists b | 0 <= b <= |s| :: MatchesHead(re.items, re.dollar, s[b..]))
  {
    hide MatchesHead;
    assert s[0..] == s;
  }

  method MatchRegexAnywhere(regex: Pointer, str: Pointer, ghost re: Regex) returns (ok: bool)
    requires regex.Str? ==> re.Valid() && regex.s == re.Text()
    requires str.Str? ==> |str.s| <= MAX_COUNT
    ensures ok <==> regex.Str? && str.Str? && Finds(re, str.s)
  {
    hide TextOf, MatchesHead, Finds;
    if regex.Null? || str.Null? {
      return false;
    }
    var r, s := regex.s, str.s;
    CaretInText(re);
    FoundAt(re, s);
    if At(r, 0) == '^' {
      ok := MatchRegexAtHead(r[1..], s, re.items, re.dollar);
      return;
    }
    var a := 0;
    while true
      invariant 0 <= a <= |s|
      invariant forall b | 0 <= b < a :: !MatchesHead(re.items, re.dollar, s[b..])
      decreases |s| - a
    {
      var found := MatchRegexAtHead(r, s[a..], re.items, re.dollar);
      if found {
        return true;
      }
      if At(s, a) == NUL {
        return false;
      }
      a := a + 1;
    }
  }

  // ----- the class

  /** A pattern that ends in an escaped dollar. */
  ghost predicate EndsInEscapedDollar(re: Regex) {
    !re.dollar && re.items != [] && re.items[|re.items| - 1] == Item(true, '$', Once)
  }

  /** What a full match is tried with: anchored at the start, and at the end unless the text ends in a dollar. */
  ghost function FullRegex(re: Regex): Regex {
    Regex(true, re.items, !EndsInEscapedDollar(re))
  }

  lemma {:induction false} LastCharacter(items: seq<Item>, dollar: bool)
    requires AllValid(items)
    ensures var t := TextOf(items, dollar);
            t != "" && t[|t| - 1] == '$' <==> dollar || (items != [] && items[|items| - 1] == Item(true, '$', Once))
    ensures items != [] ==> TextOf(items, dollar) != ""
  {
    hide IsAsciiPunct, IsValidEscape;
    if items != [] {
      var item, rest := items[0], TextOf(items[1..], dollar);
      LastCharacter(items[1..], dollar);
      assert item.Valid();
      assert items[1..] != [] ==> items[|items| - 1] == items[1..][|items[1..]| - 1];
      ItemLastCharacter(item);
      assert TextOf(items, dollar) == item.Text() + rest;
    }
  }

  lemma ItemLastCharacter(item: Item)
    requires item.Valid()
    ensures item.Text() != "" && (item.Text()[|item.Text()| - 1] == '$' <==> item == Item(true, '$', Once))
  {
  }

  lemma DollarAppends(items: seq<Item>)
    ensures TextOf(items, true) == TextOf(items, false) + "$"
  {
    if items != [] {
      DollarAppends(items[1..]);
    }
  }

  /** A pattern with the anchors it lacks, judged by its first and last characters. */
  function Anchored(p: string): string {
    (if p == "" || p[0] != '^' then "^" else "") + p + (if p == "" || p[|p| - 1] != '$' then "$" else "")
  }

  lemma AnchoredTail(t: string)
    requires t != "" ==> t[0] != '^'
    ensures Anchored(t) == "^" + t + (if t == "" || t[|t| - 1] != '$' then "$" else "")
    ensures Anchored("^" + t) == "^" + t + (if t == "" || t[|t| - 1] != '$' then "$" else "")
  {
    var p := "^" + t;
    assert p[0] == '^' && p[|p| - 1] == if t == "" then '^' else t[|t| - 1];
    assert "" + p == p;
  }

  lemma CaretOrNot(re: Regex)
    ensures re.Text() == if re.caret then "^" + TextOf(re.items, re.dollar) else TextOf(re.items, re.dollar)
  {
    hide TextOf;
    var t := TextOf(re.items, re.dollar);
    assert "" + t == t;
  }

  lemma FullText(re: Regex)
    requires re.Valid()
    ensures FullRegex(re).Text() == Anchored(re.Text())
  {
    hide TextOf, Anchored;
    var t := TextOf(re.items, re.dollar);
    LastCharacter(re.items, re.dollar);
    FirstIsNotCaret(re);
    AnchoredTail(t);
    FullTail(re);
    CaretOrNot(re);
  }

  lemma FullTail(re: Regex)
    requires re.Valid()
    ensures var t := TextOf(re.items, re.dollar);
            FullRegex(re).Text() == "^" + t + (if t == "" || t[|t| - 1] != '$' then "$" else "")
  {
    var t := TextOf(re.items, re.dollar);
    LastCharacter(re.items, re.dollar);
    DollarAppends(re.items);
    if !re.dollar && !EndsInEscapedDollar(re) {
      assert FullRegex(re).Text() == "^" + (t + "$");
    } else {
      assert FullRegex(re).Text() == "^" + t;
    }
  }

  lemma FirstIsNotCaret(re: Regex)
    requires re.Valid()
    ensures var t := TextOf(re.items, re.dollar); t != "" ==> t[0] != '^'
  {
    if re.items != [] {
      FirstItem(re.items, re.dollar);
      TextFromAtom(re.items, re.dollar);
      assert re.items[0].Valid();
    }
  }

  method AddAnchors(pattern: CString) returns (full: CString)
    ensures full == Anchored(pattern)
  {
    full := "";
    if pattern == "" || pattern[0] != '^' {
      full := full + "^";
    }
    full := full + pattern;
    if pattern == "" || pattern[|pattern| - 1] != '$' {
      full := full + "$";
    }
  }

  class RE {
    var pattern: CString
    var fullPattern: CString
    var isValid: bool

    /** The three fields belong together: the pattern is valid and then the full pattern is its anchored form. */
    ghost predicate Consistent()
      reads this
    {
      isValid ==> ValidText(pattern) && Parse(pattern).Valid() && Parse(pattern).Text() == pattern
                  && fullPattern == FullRegex(Parse(pattern)).Text()
    }

    constructor (regex: Pointer)
      ensures Consistent()
      ensures isValid <==> regex.Str? && ValidText(regex.s)
      ensures isValid ==> pattern == regex.s
    {
      fullPattern := "";
      pattern := if regex.Str? then regex.s else "";
      new;
      isValid := ValidateRegex(regex);
      if !isValid {
        return;
      }
      ParseSound(pattern);
      FullText(Parse(pattern));
      fullPattern := AddAnchors(pattern);
    }

    method PartialMatch(str: Pointer) returns (ok: bool)
      requires Consistent() && (str.Str? ==> |str.s| <= MAX_COUNT)
      ensures ok <==> isValid && str.Str? && Finds(Parse(pattern), str.s)
    {
      if isValid {
        ok := MatchRegexAnywhere(Str(pattern), str, Parse(pattern));
      } else {
        ok := false;
      }
    }

    method FullMatch(str: Pointer) returns (ok: bool)
      requires Consistent() && (str.Str? ==> |str.s| <= MAX_COUNT)
      ensures ok <==> isValid && str.Str? && Finds(FullRegex(Parse(pattern)), str.s)
    {
      if isValid {
        ok := MatchRegexAnywhere(Str(fullPattern), str, FullRegex(Parse(pattern)));
      } else {
        ok := false;
      }
    }
  }

  // ----- when a full match is one

  /** A character the item matches. */
  function Sample(item: Item): (ch: char)
    requires item.Valid()
    ensures item.Matches(ch) && ch != NUL
  {
    if !item.escaped then item.c
    else
      match item.c
      case 'd' => '0'
      case 'D' => 'x'
      case 'f' => 12 as char
      case 'n' => '\n'
      case 'r' => '\r'
      case 's' => ' '
      case 'S' => 'x'
      case 't' => '\t'
      case 'v' => 11 as char
      case 'w' => 'x'
      case 'W' => ' '
      case _ => item.c
  }

  function SampleText(items: seq<Item>): CString
    requires forall i | 0 <= i < |items| :: items[i].Valid()
  {
    if items == [] then "" else [Sample(items[0])] + SampleText(items[1..])
  }

  lemma {:induction false} SampleInLanguage(items: seq<Item>)
    requires AllValid(items)
    ensures InLanguage(items, SampleText(items))
  {
    if items != [] {
      var s := SampleText(items);
      SampleInLanguage(items[1..]);
      assert s[1..] == SampleText(items[1..]);
      assert Repeated(items[0], s[..1]);
    }
  }

  lemma {:induction false} LastItemTakesLast(items: seq<Item>, s: string)
    requires items != [] && items[|items| - 1].rep == Once && InLanguage(items, s)
    ensures s != "" && items[|items| - 1].Matches(s[|s| - 1])
  {
    var k :| 0 <= k <= |s| && Repeated(items[0], s[..k]) && InLanguage(items[1..], s[k..]);
    if |items| > 1 {
      LastItemTakesLast(items[1..], s[k..]);
    }
  }

  /** Found with its end anchored or not: the whole string or a prefix is in the language. */
  lemma FindsFull(re: Regex, s: string)
    ensures Finds(FullRegex(re), s) <==> MatchesHead(re.items, !EndsInEscapedDollar(re), s)
    ensures MatchesHead(re.items, true, s) <==> InLanguage(re.items, s)
  {
    assert s[0..] == s && s[..|s|] == s;
  }

  /** A full match means that the whole string is in the language, for all strings, exactly when the pattern does not
      end in an escaped dollar; otherwise any string that starts with a match is accepted too. */
  lemma FullMatchExactly(re: Regex)
    requires re.Valid()
    ensures (forall s: CString :: Finds(FullRegex(re), s) <==> InLanguage(re.items, s)) <==> !EndsInEscapedDollar(re)
  {
    forall s: CString ensures !EndsInEscapedDollar(re) ==> (Finds(FullRegex(re), s) <==> InLanguage(re.items, s)) {
      FindsFull(re, s);
    }
    if EndsInEscapedDollar(re) {
      var s := EscapedDollarOvermatches(re);
    }
  }

  lemma EscapedDollarOvermatches(re: Regex) returns (s: CString)
    requires re.Valid() && EndsInEscapedDollar(re)
    ensures Finds(FullRegex(re), s) && !InLanguage(re.items, s)
  {
    hide InLanguage, Finds, Sample, SampleText, IsAsciiPunct, IsValidEscape;
    var t := SampleText(re.items);
    s := t + "x";
    SampleInLanguage(re.items);
    assert s[..|t|] == t;
    FindsFull(re, s);
    assert MatchesHead(re.items, false, s);
    if InLanguage(re.items, s) { LastItemTakesLast(re.items, s); }
  }
}
