/** The simple regular expressions: their syntax and validation, their language, and the recursive matcher. */
module SimpleRegex {
  const NUL: char := '\0'

  /** A C string, without its terminator. */
  type CString = s: string | NUL !in s witness ""

  /** The character at `i`; the terminator at the end. */
  function At(s: string, i: nat): char {
    if i < |s| then s[i] else NUL
  }

  // ----- characters

  predicate IsInSet(ch: char, set': string) {
    ch != NUL && ch in set'
  }

  predicate IsAsciiDigit(ch: char) {
    '0' <= ch <= '9'
  }

  predicate IsAsciiPunct(ch: char) {
    IsInSet(ch, "^-!\"#$%&'()*+,./:;<=>?@[\\]_`{|}~")
  }

  predicate IsRepeat(ch: char) {
    IsInSet(ch, "?*+")
  }

  predicate IsAsciiWhiteSpace(ch: char) {
    ch == ' ' || 9 as char <= ch <= 13 as char
  }

  predicate IsAsciiWordChar(ch: char) {
    'a' <= ch <= 'z' || 'A' <= ch <= 'Z' || '0' <= ch <= '9' || ch == '_'
  }

  predicate IsValidEscape(c: char) {
    IsAsciiPunct(c) || IsInSet(c, "dDfnrsStvwW")
  }

  predicate AtomMatchesChar(escaped: bool, p: char, ch: char) {
    if !escaped then (p == '.' && ch != '\n') || p == ch
    else
      match p
      case 'd' => IsAsciiDigit(ch)
      case 'D' => !IsAsciiDigit(ch)
      case 'f' => ch == 12 as char
      case 'n' => ch == '\n'
      case 'r' => ch == '\r'
      case 's' => IsAsciiWhiteSpace(ch)
      case 'S' => !IsAsciiWhiteSpace(ch)
      case 't' => ch == '\t'
      case 'v' => ch == 11 as char
      case 'w' => IsAsciiWordChar(ch)
      case 'W' => !IsAsciiWordChar(ch)
      case _ => IsAsciiPunct(p) && p == ch
  }

  // ----- syntax

  datatype Repeat = Once | Optional | Star | Plus {
    function Text(): string {
      match this
      case Once => ""
      case Optional => "?"
      case Star => "*"
      case Plus => "+"
    }

    predicate Allows(count: nat) {
      match this
      case Once => count == 1
      case Optional => count <= 1
      case Star => true
      case Plus => count >= 1
    }
  }

  datatype Item = Item(escaped: bool, c: char, rep: Repeat) {
    predicate Valid() {
      if escaped then IsValidEscape(c) else c != NUL && c != '\\' && !IsInSet(c, "^$?*+()[]{}|")
    }

    function Text(): string {
      (if escaped then "\\" else "") + [c] + rep.Text()
    }

    predicate Matches(ch: char) {
      AtomMatchesChar(escaped, c, ch)
    }
  }

  datatype Regex = Regex(caret: bool, items: seq<Item>, dollar: bool) {
    ghost predicate Valid() {
      AllValid(items)
    }

    function Text(): string {
      (if caret then "^" else "") + TextOf(items, dollar)
    }
  }

  ghost predicate AllValid(items: seq<Item>) {
    forall i | 0 <= i < |items| :: items[i].Valid()
  }

  function TextOf(items: seq<Item>, dollar: bool): string {
    if items == [] then (if dollar then "$" else "") else items[0].Text() + TextOf(items[1..], dollar)
  }

  // ----- the language

  ghost predicate Repeated(item: Item, s: string) {
    item.rep.Allows(|s|) && forall i | 0 <= i < |s| :: item.Matches(s[i])
  }

  /** The strings the items match as a whole. */
  ghost predicate InLanguage(items: seq<Item>, s: string)
    decreases |items|
  {
    if items == [] then s == ""
    else exists k | 0 <= k <= |s| :: Repeated(items[0], s[..k]) && InLanguage(items[1..], s[k..])
  }

  /** Some prefix is in the language; with a dollar, the whole string is. */
  ghost predicate MatchesHead(items: seq<Item>, dollar: bool, s: string) {
    exists k | 0 <= k <= |s| :: InLanguage(items, s[..k]) && (dollar ==> k == |s|)
  }

  /** Some substring is in the language, starting at the beginning or reaching the end where anchored. */
  ghost predicate Finds(re: Regex, s: string) {
    exists a | 0 <= a <= |s| :: (re.caret ==> a == 0) && MatchesHead(re.items, re.dollar, s[a..])
  }

  // ----- parsing

  /** What may follow inside a valid pattern, where `repeatable` says that a repetition may come first. */
  predicate ValidRest(r: string, repeatable: bool)
    decreases |r|
  {
    if r == "" then true
    else if r[0] == '\\' then |r| > 1 && IsValidEscape(r[1]) && ValidRest(r[2..], true)
    else
      && r[0] != '^'
      && (r[0] == '$' ==> |r| == 1)
      && !IsInSet(r[0], "()[]{}|")
      && (IsRepeat(r[0]) ==> repeatable)
      && ValidRest(r[1..], !IsInSet(r[0], "^$?*+"))
  }

  predicate ValidText(r: string) {
    if r != "" && r[0] == '^' then ValidRest(r[1..], false) else ValidRest(r, false)
  }

  function RepeatOf(ch: char): (rep: Repeat)
    requires IsRepeat(ch)
    ensures rep != Once && rep.Text() == [ch]
  {
    if ch == '?' then Optional else if ch == '*' then Star else Plus
  }

  datatype Rest = Rest(rep: Repeat, items: seq<Item>, dollar: bool) {
    function Text(): string {
      rep.Text() + TextOf(items, dollar)
    }
  }

  function WithItem(escaped: bool, c: char, rest: Rest): Rest {
    Rest(Once, [Item(escaped, c, rest.rep)] + rest.items, rest.dollar)
  }

  function ParseRest(r: string, repeatable: bool): (p: Rest)
    requires ValidRest(r, repeatable)
    ensures p.rep != Once ==> repeatable
    decreases |r|
  {
    if r == "" then Rest(Once, [], false)
    else if r[0] == '\\' then WithItem(true, r[1], ParseRest(r[2..], true))
    else if r[0] == '$' then Rest(Once, [], true)
    else if IsRepeat(r[0]) then
      var rest := ParseRest(r[1..], false);
      Rest(RepeatOf(r[0]), rest.items, rest.dollar)
    else WithItem(false, r[0], ParseRest(r[1..], true))
  }

  lemma WithItemText(escaped: bool, c: char, rest: Rest)
    ensures AllValid(rest.items) && Item(escaped, c, rest.rep).Valid() ==> AllValid(WithItem(escaped, c, rest).items)
    ensures WithItem(escaped, c, rest).Text() == (if escaped then "\\" else "") + [c] + rest.Text()
  {
    var p := WithItem(escaped, c, rest);
    assert p.items[1..] == rest.items;
  }

  lemma EscapeComesFirst(c: char, rest: string, repeatable: bool)
    requires IsValidEscape(c) && ValidRest(rest, true)
    ensures ValidRest("\\" + [c] + rest, repeatable)
    ensures ParseRest("\\" + [c] + rest, repeatable) == WithItem(true, c, ParseRest(rest, true))
  {
    hide IsAsciiPunct, IsValidEscape;
    var r := "\\" + [c] + rest;
    assert r[0] == '\\' && r[1] == c && r[2..] == rest;
  }

  lemma PlainComesFirst(c: char, rest: string, repeatable: bool)
    requires Item(false, c, Once).Valid() && ValidRest(rest, true)
    ensures ValidRest([c] + rest, repeatable)
    ensures ParseRest([c] + rest, repeatable) == WithItem(false, c, ParseRest(rest, true))
  {
    hide IsAsciiPunct, IsValidEscape;
    var r := [c] + rest;
    assert r[0] == c && r[1..] == rest;
  }

  lemma RepeatComesFirst(rep: Repeat, rest: string)
    requires rep != Once && ValidRest(rest, false)
    ensures var r := rep.Text() + rest;
            && ValidRest(r, true)
            && ParseRest(r, true) == Rest(rep, ParseRest(rest, false).items, ParseRest(rest, false).dollar)
  {
    hide IsAsciiPunct, IsValidEscape;
    var r := rep.Text() + rest;
    assert r[1..] == rest;
  }

  /** Parsing loses nothing. */
  lemma {:induction false} ParseRestSound(r: CString, repeatable: bool)
    requires ValidRest(r, repeatable)
    ensures ParseRest(r, repeatable).Text() == r && AllValid(ParseRest(r, repeatable).items)
    decreases |r|
  {
    hide IsAsciiPunct, IsValidEscape, TextOf;
    if r != "" {
      if r[0] == '\\' {
        ParseRestSound(r[2..], true);
        WithItemText(true, r[1], ParseRest(r[2..], true));
        assert r == "\\" + [r[1]] + r[2..];
      } else if r[0] == '$' {
        assert r == "$" && TextOf([], true) == "$" by { EmptyText(); }
      } else if IsRepeat(r[0]) {
        ParseRestSound(r[1..], false);
        assert r == [r[0]] + r[1..];
      } else {
        ParseRestSound(r[1..], true);
        WithItemText(false, r[0], ParseRest(r[1..], true));
        assert r == [r[0]] + r[1..];
      }
    } else {
      EmptyText();
    }
  }

  lemma EmptyText()
    ensures TextOf([], true) == "$" && TextOf([], false) == ""
  {
  }

  /** Whatever is written from valid items is valid and is parsed back into them. */
  lemma {:induction false} ParseRestComplete(p: Rest, repeatable: bool)
    requires AllValid(p.items) && (p.rep != Once ==> repeatable)
    ensures ValidRest(p.Text(), repeatable) && ParseRest(p.Text(), repeatable) == p
    decreases |p.items|, if p.rep != Once then 1 else 0
  {
    hide IsAsciiPunct, IsValidEscape;
    if p.rep != Once {
      var rest := Rest(Once, p.items, p.dollar);
      ParseRestComplete(rest, false);
      RepeatComesFirst(p.rep, rest.Text());
      assert "" + TextOf(p.items, p.dollar) == TextOf(p.items, p.dollar);
    } else if p.items != [] {
      ItemIsParsed(p.items[0], Rest(p.items[0].rep, p.items[1..], p.dollar), repeatable);
      assert p.items == [p.items[0]] + p.items[1..];
    } else {
      assert p.Text() == if p.dollar then "$" else "";
    }
  }

  lemma {:induction false} ItemIsParsed(item: Item, rest: Rest, repeatable: bool)
    requires item.Valid() && AllValid(rest.items) && rest.rep == item.rep
    ensures var p := WithItem(item.escaped, item.c, rest);
            ValidRest(p.Text(), repeatable) && ParseRest(p.Text(), repeatable) == p
    decreases |rest.items|, 2
  {
    hide IsAsciiPunct, IsValidEscape, ValidRest, ParseRest, TextOf;
    ParseRestComplete(rest, true);
    WithItemText(item.escaped, item.c, rest);
    if item.escaped {
      EscapeComesFirst(item.c, rest.Text(), repeatable);
    } else {
      assert "" + [item.c] + rest.Text() == [item.c] + rest.Text();
      PlainComesFirst(item.c, rest.Text(), repeatable);
    }
  }

  function Parse(r: string): Regex
    requires ValidText(r)
  {
    var caret := r != "" && r[0] == '^';
    var rest := ParseRest(if caret then r[1..] else r, false);
    Regex(caret, rest.items, rest.dollar)
  }

  lemma ParseSound(r: CString)
    requires ValidText(r)
    ensures Parse(r).Valid() && Parse(r).Text() == r
  {
    hide ParseRest, ValidRest, TextOf;
    var rest: CString := if r != "" && r[0] == '^' then r[1..] else r;
    ParseRestSound(rest, false);
  }

  lemma ParseComplete(re: Regex)
    requires re.Valid()
    ensures ValidText(re.Text()) && Parse(re.Text()) == re
  {
    var rest := Rest(Once, re.items, re.dollar);
    ParseRestComplete(rest, false);
    if re.caret {
      assert re.Text()[1..] == rest.Text();
    } else {
      assert re.Text() == rest.Text();
      assert rest.Text() != "" ==> rest.Text()[0] != '^';
    }
  }

  /** A pattern is valid exactly when it is the text of a regular expression; there is only one. */
  lemma ValidExactly(r: CString, re: Regex)
    ensures ValidText(r) <==> exists x: Regex :: x.Valid() && x.Text() == r
    ensures ValidText(r) && re.Valid() && re.Text() == r ==> re == Parse(r)
  {
    if ValidText(r) { ParseSound(r); }
    forall x: Regex | x.Valid() && x.Text() == r ensures ValidText(r) && x == Parse(r) { ParseComplete(x); }
  }

  datatype Pointer = Null | Str(s: CString)

  method ValidateRegex(regex: Pointer) returns (ok: bool)
    ensures ok <==> regex.Str? && ValidText(regex.s)
  {
    if regex.Null? {
      return false;
    }
    var r := regex.s;
    var valid := true;
    var repeatable := false;
    var i := 0;
    while At(r, i) != NUL
      invariant 0 <= i <= |r|
      invariant i == 0 ==> valid && !repeatable
      invariant ValidText(r) <==> valid && if i == 0 then ValidText(r) else ValidRest(r[i..], repeatable)
      decreases |r| - i
    {
      assert r[i] != NUL;
      if r[i] == '\\' {
        i := i + 1;
        if At(r, i) == NUL {
          return false;
        }
        if !IsValidEscape(r[i]) {
          valid := false;
        }
        repeatable := true;
      } else {
        var ch := r[i];
        if ch == '^' && i > 0 {
          valid := false;
        } else if ch == '$' && At(r, i + 1) != NUL {
          valid := false;
        } else if IsInSet(ch, "()[]{}|") {
          valid := false;
        } else if IsRepeat(ch) && !repeatable {
          valid := false;
        }
        repeatable := !IsInSet(ch, "^$?*+");
      }
      i := i + 1;
    }
    return valid;
  }
}
