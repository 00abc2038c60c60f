/** What the characters of a simple regular expression stand for, and what that makes of the patterns they form. */
module RegexMeaning {
  import opened SimpleRegex

  // ----- characters, listed

  const DIGITS: set<char> := {'0', '1', '2', '3', '4', '5', '6', '7', '8', '9'}

  /** Blank, tab, line feed, vertical tab, form feed and carriage return. */
  const SPACES: set<char> := {' ', 9 as char, 10 as char, 11 as char, 12 as char, 13 as char}

  const LOWER: set<char> := {
    'a', 'b', 'c', 'd', 'e', 'f', 'g', 'h', 'i', 'j', 'k', 'l', 'm', 'n', 'o', 'p', 'q', 'r', 's', 't', 'u',
    'v', 'w', 'x', 'y', 'z'
  }

  const UPPER: set<char> := {
    'A', 'B', 'C', 'D', 'E', 'F', 'G', 'H', 'I', 'J', 'K', 'L', 'M', 'N', 'O', 'P', 'Q', 'R', 'S', 'T', 'U',
    'V', 'W', 'X', 'Y', 'Z'
  }

  /** What a word is made of. */
  ghost predicate IsWord(ch: char) {
    ch in LOWER || ch in UPPER || ch in DIGITS || ch == '_'
  }

  const PUNCTUATION: set<char> := {
    '^', '-', '!', '\"', '#', '$', '%', '&', '\'', '(', ')', '*', '+', ',', '.', '/', ':', ';', '<', '=', '>',
    '?', '@', '[', '\\', ']', '_', '`', '{', '|', '}', '~'
  }

  const CLASSES: set<char> := {'d', 'D', 'f', 'n', 'r', 's', 'S', 't', 'v', 'w', 'W'}

  lemma PunctuationIs(c: char)
    ensures IsAsciiPunct(c) <==> c in PUNCTUATION
  {
  }

  /** What may be escaped: the letters of the classes and every punctuation character. */
  lemma EscapesAre(c: char)
    ensures IsValidEscape(c) <==> c in CLASSES || c in PUNCTUATION
  {
    PunctuationIs(c);
    hide IsAsciiPunct;
  }

  /** What an unescaped character of a valid pattern may be: anything that is not an operator. */
  lemma PlainAre(c: char)
    ensures Item(false, c, Once).Valid() <==>
            c !in {NUL, '\\', '^', '$', '?', '*', '+', '(', ')', '[', ']', '{', '}', '|'}
  {
  }

  lemma LowerAre(ch: char)
    ensures 'a' <= ch <= 'z' <==> ch in LOWER
  {
  }

  lemma UpperAre(ch: char)
    ensures 'A' <= ch <= 'Z' <==> ch in UPPER
  {
  }

  lemma WordsAre(ch: char)
    ensures IsAsciiWordChar(ch) <==> IsWord(ch)
  {
    LowerAre(ch);
    UpperAre(ch);
  }

  /** An unescaped character matches itself, and a dot everything but a line feed. */
  lemma PlainMeans(c: char, rep: Repeat, ch: char)
    ensures Item(false, c, rep).Matches(ch) <==> if c == '.' then ch != 10 as char else ch == c
  {
  }

  /** An escaped letter matches the characters of its class, a capital one all others; an escaped punctuation character
      matches itself. */
  lemma EscapeMeans(c: char, rep: Repeat, ch: char)
    requires c in CLASSES || c in PUNCTUATION
    ensures Item(true, c, rep).Matches(ch) <==>
            match c
            case 'd' => ch in DIGITS
            case 'D' => ch !in DIGITS
            case 's' => ch in SPACES
            case 'S' => ch !in SPACES
            case 'w' => IsWord(ch)
            case 'W' => !IsWord(ch)
            case 't' => ch == 9 as char
            case 'n' => ch == 10 as char
            case 'v' => ch == 11 as char
            case 'f' => ch == 12 as char
            case 'r' => ch == 13 as char
            case _ => ch == c
  {
    PunctuationIs(c);
    WordsAre(ch);
    hide IsAsciiPunct, IsAsciiWordChar, IsWord;
  }

  // ----- repetitions

  /** How often a single item may match: as its text says. */
  lemma OneItemMeans(item: Item, s: string)
    ensures InLanguage([item], s) <==>
            && (forall i | 0 <= i < |s| :: item.Matches(s[i]))
            && (item.rep.Text() == "" ==> |s| == 1)
            && (item.rep.Text() == "?" ==> |s| <= 1)
            && (item.rep.Text() == "+" ==> |s| >= 1)
    ensures item.rep.Text() in {"", "?", "*", "+"}
  {
    OneItemRepeats(item, s);
    hide InLanguage, AtomMatchesChar;
    assert |"?"| == 1 && |"*"| == 1 && "?"[0] == '?' && "*"[0] == '*' && "+"[0] == '+';
    match item.rep
    case Once =>
    case Optional =>
    case Star =>
    case Plus =>
  }

  lemma OneItemRepeats(item: Item, s: string)
    ensures InLanguage([item], s) <==> Repeated(item, s)
  {
    hide Repeated;
    if InLanguage([item], s) {
      var k :| 0 <= k <= |s| && Repeated(item, s[..k]) && InLanguage([item][1..], s[k..]);
      assert s[..k] == s;
    }
    assert s[..|s|] == s && s[|s|..] == "";
    assert InLanguage([item][1..], s[|s|..]);
  }

  /** The parts of a string that one item, and then some more, and then others match. */
  ghost predicate Parted(item: Item, a: seq<Item>, b: seq<Item>, s: string, i: nat, j: nat) {
    i <= j <= |s| && Repeated(item, s[..i]) && InLanguage(a, s[i..j]) && InLanguage(b, s[j..])
  }

  lemma PartsJoin(a: seq<Item>, b: seq<Item>, s: string, i: nat, j: nat)
    requires a != [] && Parted(a[0], a[1..], b, s, i, j)
    ensures InLanguage(a, s[..j]) && InLanguage(b, s[j..])
  {
    hide Repeated;
    assert s[..j][..i] == s[..i] && s[..j][i..] == s[i..j];
  }

  /** Items one after the other match what the first of them match, followed by what the others do. */
  lemma {:induction false} ItemsConcat(a: seq<Item>, b: seq<Item>, s: string)
    ensures InLanguage(a + b, s) <==> exists k | 0 <= k <= |s| :: InLanguage(a, s[..k]) && InLanguage(b, s[k..])
    decreases |a|
  {
    hide Repeated;
    if a == [] {
      assert a + b == b && s[0..] == s && InLanguage([], s[..0]);
    } else {
      assert (a + b)[0] == a[0] && (a + b)[1..] == a[1..] + b;
      if InLanguage(a + b, s) {
        var i :| 0 <= i <= |s| && Repeated(a[0], s[..i]) && InLanguage(a[1..] + b, s[i..]);
        ItemsConcat(a[1..], b, s[i..]);
        var j :| 0 <= j <= |s[i..]| && InLanguage(a[1..], s[i..][..j]) && InLanguage(b, s[i..][j..]);
        assert s[i..i + j] == s[i..][..j] && s[i + j..] == s[i..][j..];
        PartsJoin(a, b, s, i, i + j);
      }
      if k :| 0 <= k <= |s| && InLanguage(a, s[..k]) && InLanguage(b, s[k..]) {
        SplitConcat(a, b, s, k);
      }
    }
  }

  lemma {:induction false} SplitConcat(a: seq<Item>, b: seq<Item>, s: string, k: nat)
    requires a != [] && k <= |s| && InLanguage(a, s[..k]) && InLanguage(b, s[k..])
    ensures InLanguage(a + b, s)
    decreases |a|, 0
  {
    hide Repeated;
    assert (a + b)[0] == a[0] && (a + b)[1..] == a[1..] + b;
    var i :| 0 <= i <= k && Repeated(a[0], s[..k][..i]) && InLanguage(a[1..], s[..k][i..]);
    assert s[..k][..i] == s[..i] && s[..k][i..] == s[i..][..k - i] && s[k..] == s[i..][k - i..];
    ItemsConcat(a[1..], b, s[i..]);
  }

  // ----- what is found

  /** A single unrepeated item is found exactly where a character matches it. */
  lemma FindsOne(item: Item, s: string)
    requires item.rep == Once
    ensures Finds(Regex(false, [item], false), s) <==> exists i | 0 <= i < |s| :: item.Matches(s[i])
  {
    if Finds(Regex(false, [item], false), s) {
      var a :| 0 <= a <= |s| && MatchesHead([item], false, s[a..]);
      var k :| 0 <= k <= |s[a..]| && InLanguage([item], s[a..][..k]);
      OneItemMeans(item, s[a..][..k]);
      assert s[a..][..k][0] == s[a];
    }
    if i :| 0 <= i < |s| && item.Matches(s[i]) {
      OneItemMeans(item, s[i..][..1]);
      assert MatchesHead([item], false, s[i..]);
    }
  }

  /** `\w` is found exactly in strings with a letter, a digit or an underscore, and `\W` exactly in those with
      anything else. */
  lemma FindsWord(s: string)
    ensures Finds(Regex(false, [Item(true, 'w', Once)], false), s) <==>
            exists i | 0 <= i < |s| :: IsWord(s[i])
    ensures Finds(Regex(false, [Item(true, 'W', Once)], false), s) <==>
            exists i | 0 <= i < |s| :: !IsWord(s[i])
  {
    hide Finds, AtomMatchesChar, IsWord;
    FindsOne(Item(true, 'w', Once), s);
    FindsOne(Item(true, 'W', Once), s);
    forall i | 0 <= i < |s|
      ensures Item(true, 'w', Once).Matches(s[i]) <==> IsWord(s[i])
      ensures Item(true, 'W', Once).Matches(s[i]) <==> !IsWord(s[i])
    {
      EscapeMeans('w', Once, s[i]);
      EscapeMeans('W', Once, s[i]);
    }
  }

  /** Where a pattern without anchors may be found: at some substring. */
  ghost predicate Somewhere(items: seq<Item>, s: string, a: nat, b: nat) {
    a <= b <= |s| && InLanguage(items, s[a..b])
  }

  lemma HeadMeans(items: seq<Item>, dollar: bool, s: string, a: nat)
    requires a <= |s|
    ensures MatchesHead(items, dollar, s[a..]) <==>
            exists b: nat :: Somewhere(items, s, a, b) && (dollar ==> b == |s|)
  {
    hide InLanguage;
    if k :| 0 <= k <= |s[a..]| && InLanguage(items, s[a..][..k]) && (dollar ==> k == |s[a..]|) {
      assert s[a..][..k] == s[a..a + k];
      assert Somewhere(items, s, a, a + k);
    }
    if b: nat :| Somewhere(items, s, a, b) && (dollar ==> b == |s|) {
      assert s[a..][..b - a] == s[a..b];
    }
  }

  /** A pattern is found exactly in the strings of which some part is in its language: a first part if it starts with a
      caret, a last part if it ends in a dollar. */
  lemma AnchorsMean(re: Regex, s: string)
    ensures Finds(re, s) <==>
            exists a: nat, b: nat ::
              Somewhere(re.items, s, a, b) && (re.caret ==> a == 0) && (re.dollar ==> b == |s|)
  {
    hide MatchesHead, Somewhere;
    if Finds(re, s) {
      var a :| 0 <= a <= |s| && (re.caret ==> a == 0) && MatchesHead(re.items, re.dollar, s[a..]);
      HeadMeans(re.items, re.dollar, s, a);
      var b: nat :| Somewhere(re.items, s, a, b) && (re.dollar ==> b == |s|);
    }
    if a: nat, b: nat :| Somewhere(re.items, s, a, b) && (re.caret ==> a == 0) && (re.dollar ==> b == |s|) {
      Within(re.items, s, a, b);
      HeadMeans(re.items, re.dollar, s, a);
    }
  }

  lemma Within(items: seq<Item>, s: string, a: nat, b: nat)
    requires Somewhere(items, s, a, b)
    ensures a <= |s|
  {
  }
}
