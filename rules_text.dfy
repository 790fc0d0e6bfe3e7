/**
 * Reading a card's rules text (card.py, Card.__parseText and Card.copy): the
 * printed-keyword pass, the Morph search, the decomposition of an anthem
 * clause, and the type line of a token copy.
 *
 * The anthem clause itself is found by a regular-expression search in the
 * source; here it is an input (see Cards.NewCard), and only what the parser
 * does with the clause is modelled.
 */
module RulesText {
  import opened Wrappers
  import opened Text
  import opened Cost
  import opened Lists

  /** Card.KEYWORDS, in the source's order. */
  const KEYWORDS: seq<string> := [
    "Changeling", "Deathtouch", "Defender", "Double strike", "First strike",
    "Flash", "Flying", "Forestwalk", "Haste", "Hexproof", "Indestructible",
    "Infect", "Islandwalk", "Lifelink", "Megamorph", "Menace", "Morph",
    "Mountainwalk", "Persist", "Plainswalk", "Prowess", "Reach", "Skulk",
    "Shadow", "Shroud", "Swampwalk", "Trample", "Undying", "Vigilance", "Wither"]

  /** Card.SUPERTYPES. */
  const SUPERTYPES: seq<string> := ["Legendary", "Snow", "Basic"]

  // ---------------------------------------------------------------------------
  // Printed keywords
  // ---------------------------------------------------------------------------

  /** A comma clause as the keyword pass reads it: one leading space dropped,
      trailing white space stripped, then capitalised. */
  function ClauseWord(w: string): string
  {
    Capitalize(RStrip(if |w| > 0 && w[0] == ' ' then w[1..] else w))
  }

  /** The keyword pass's three variables: the clause words collected on every
      line so far (`things`), whether no clause so far failed (`validLine`),
      and the keywords recorded. */
  datatype Scan = Scan(things: seq<string>, valid: bool, found: seq<string>)

  /** The pass over the first `n` comma clauses of one line. */
  function ScanClauses(table: seq<string>, s: Scan, words: seq<string>, n: nat): Scan
    requires n <= |words|
  {
    if n == 0 then s
    else
      var t := ScanClauses(table, s, words, n - 1);
      var w := ClauseWord(words[n - 1]);
      if w in table then t.(things := t.things + [w]) else t.(valid := false)
  }

  /** One line: its clauses, then, if no clause has failed yet on any line,
      every collected word is recorded again. */
  function ScanLine(table: seq<string>, s: Scan, line: string): Scan
  {
    var words := Split(line, ',');
    var t := ScanClauses(table, s, words, |words|);
    if t.valid then t.(found := t.found + t.things) else t
  }

  /** The pass over the first `n` lines. */
  function ScanLines(table: seq<string>, lines: seq<string>, n: nat): Scan
    requires n <= |lines|
  {
    if n == 0 then Scan([], true, []) else ScanLine(table, ScanLines(table, lines, n - 1), lines[n - 1])
  }

  /** The keywords the line-by-line pass records for a rules text, testing
      clause words against `table` (Card.KEYWORDS in the card engine). */
  function PrintedKeywords(table: seq<string>, text: string): seq<string>
  {
    var lines := Split(text, '\n');
    ScanLines(table, lines, |lines|).found
  }

  /** The clause words of a list of clauses that are keywords, in order. */
  function KeywordClauses(table: seq<string>, words: seq<string>): seq<string>
  {
    if words == [] then []
    else
      var w := ClauseWord(words[|words| - 1]);
      KeywordClauses(table, words[..|words| - 1]) + (if w in table then [w] else [])
  }

  /** Every clause of the list is a keyword. */
  predicate AllKeywords(table: seq<string>, words: seq<string>)
  {
    forall i :: 0 <= i < |words| ==> ClauseWord(words[i]) in table
  }

  lemma AllKeywordsSnoc(table: seq<string>, words: seq<string>, w: string)
    ensures AllKeywords(table, words + [w]) <==> AllKeywords(table, words) && ClauseWord(w) in table
  {
    if AllKeywords(table, words) && ClauseWord(w) in table {
      forall i | 0 <= i < |words + [w]| ensures ClauseWord((words + [w])[i]) in table {
        if i < |words| {
          assert (words + [w])[i] == words[i];
        }
      }
    }
    if AllKeywords(table, words + [w]) {
      assert ClauseWord((words + [w])[|words|]) in table;
      forall i | 0 <= i < |words| ensures ClauseWord(words[i]) in table {
        assert (words + [w])[i] == words[i];
      }
    }
  }

  lemma {:induction false} ScanClausesIsFilter(table: seq<string>, s: Scan, words: seq<string>, n: nat)
    requires n <= |words|
    ensures ScanClauses(table, s, words, n)
         == Scan(s.things + KeywordClauses(table, words[..n]), s.valid && AllKeywords(table, words[..n]), s.found)
  {
    if n > 0 {
      ScanClausesIsFilter(table, s, words, n - 1);
      assert words[..n][..n - 1] == words[..n - 1];
      assert words[..n] == words[..n - 1] + [words[n - 1]];
      AllKeywordsSnoc(table, words[..n - 1], words[n - 1]);
    } else {
      assert words[..0] == [];
    }
  }

  /** What one line does, stated without the loop: its keyword clauses are
      collected whatever the line holds; the line is valid only when all its
      clauses are keywords and every earlier line was; a valid line records
      ALL words collected so far again, earlier lines' included. */
  lemma ScanLineEffect(table: seq<string>, s: Scan, line: string)
    ensures var words := Split(line, ',');
            var valid := s.valid && AllKeywords(table, words);
            var things := s.things + KeywordClauses(table, words);
            ScanLine(table, s, line) == Scan(things, valid, if valid then s.found + things else s.found)
  {
    var words := Split(line, ',');
    ScanClausesIsFilter(table, s, words, |words|);
    assert words[..|words|] == words;
  }

  /** One failing line disables every later line: nothing more is recorded. */
  lemma {:induction false} InvalidLineSticks(table: seq<string>, lines: seq<string>, n: nat, m: nat)
    requires n <= m <= |lines|
    requires !ScanLines(table, lines, n).valid
    ensures !ScanLines(table, lines, m).valid
    ensures ScanLines(table, lines, m).found == ScanLines(table, lines, n).found
    decreases m - n
  {
    if n < m {
      ScanLineEffect(table, ScanLines(table, lines, n), lines[n]);
      InvalidLineSticks(table, lines, n + 1, m);
    }
  }

  lemma {:induction false} KeywordClausesAreKeywords(table: seq<string>, words: seq<string>)
    ensures forall k :: k in KeywordClauses(table, words) ==> k in table
  {
    if words != [] {
      KeywordClausesAreKeywords(table, words[..|words| - 1]);
    }
  }

  lemma {:induction false} ScanLinesKeywords(table: seq<string>, lines: seq<string>, n: nat)
    requires n <= |lines|
    ensures forall k :: k in ScanLines(table, lines, n).things ==> k in table
    ensures forall k :: k in ScanLines(table, lines, n).found ==> k in table
  {
    if n > 0 {
      ScanLinesKeywords(table, lines, n - 1);
      ScanLineEffect(table, ScanLines(table, lines, n - 1), lines[n - 1]);
      KeywordClausesAreKeywords(table, Split(lines[n - 1], ','));
    }
  }

  /** Only members of the keyword table are ever recorded. */
  lemma PrintedKeywordsAreKeywords(table: seq<string>, text: string)
    ensures forall k :: k in PrintedKeywords(table, text) ==> k in table
  {
    var lines := Split(text, '\n');
    ScanLinesKeywords(table, lines, |lines|);
  }

  /** A one-line text whose every clause is a keyword records exactly its
      clause words, in order. */
  lemma SingleValidLine(table: seq<string>, line: string)
    requires '\n' !in line
    requires AllKeywords(table, Split(line, ','))
    ensures PrintedKeywords(table, line) == KeywordClauses(table, Split(line, ','))
  {
    var lines := Split(line, '\n');
    SplitNoSeparator(line, '\n');
    assert ScanLines(table, lines, 1) == ScanLine(table, Scan([], true, []), line);
    ScanLineEffect(table, Scan([], true, []), line);
  }

  /** A valid second line records the first line's keywords a second time. */
  lemma ValidLinesReappend(table: seq<string>, first: string, second: string)
    requires '\n' !in first && '\n' !in second
    requires AllKeywords(table, Split(first, ',')) && AllKeywords(table, Split(second, ','))
    ensures var a := KeywordClauses(table, Split(first, ','));
            var b := KeywordClauses(table, Split(second, ','));
            PrintedKeywords(table, first + "\n" + second) == a + (a + b)
  {
    SplitTwoLines(first, second);
    var lines := [first, second];
    var a := KeywordClauses(table, Split(first, ','));
    var b := KeywordClauses(table, Split(second, ','));
    var s0 := Scan([], true, []);
    ScanLineEffect(table, s0, first);
    assert [] + a == a;
    var s1 := Scan(a, true, a);
    assert ScanLine(table, s0, first) == s1;
    assert ScanLines(table, lines, 1) == s1;
    ScanLineEffect(table, s1, second);
    assert ScanLine(table, s1, second) == Scan(a + b, true, a + (a + b));
    assert ScanLines(table, lines, 2) == ScanLine(table, s1, second);
  }

  /** A failing clause on the first line leaves every later line unrecorded,
      however many keywords they hold. */
  lemma InvalidFirstLine(table: seq<string>, first: string, second: string)
    requires '\n' !in first && '\n' !in second
    requires !AllKeywords(table, Split(first, ','))
    ensures PrintedKeywords(table, first + "\n" + second) == []
  {
    SplitTwoLines(first, second);
    var lines := [first, second];
    ScanLineEffect(table, Scan([], true, []), first);
    assert ScanLines(table, lines, 1) == ScanLine(table, Scan([], true, []), first);
    InvalidLineSticks(table, lines, 1, 2);
  }

  lemma {:induction false} SplitNoSeparator(s: string, sep: char)
    requires sep !in s
    ensures Split(s, sep) == [s]
  {
    if s != [] {
      SplitNoSeparator(s[1..], sep);
      assert [s[0]] + s[1..] == s;
    }
  }

  lemma {:induction false} SplitAroundSeparator(a: string, b: string, sep: char)
    requires sep !in a
    ensures Split(a + [sep] + b, sep) == [a] + Split(b, sep)
  {
    if a == [] {
      assert a + [sep] + b == [sep] + b;
      assert ([sep] + b)[1..] == b;
    } else {
      assert (a + [sep] + b)[1..] == a[1..] + [sep] + b;
      SplitAroundSeparator(a[1..], b, sep);
      assert [a[0]] + a[1..] == a;
    }
  }

  lemma SplitTwoLines(first: string, second: string)
    requires '\n' !in first && '\n' !in second
    ensures Split(first + "\n" + second, '\n') == [first, second]
  {
    SplitAroundSeparator(first, second, '\n');
    SplitNoSeparator(second, '\n');
  }

  // ---------------------------------------------------------------------------
  // The Morph search
  // ---------------------------------------------------------------------------

  /** The leftmost match, at or after `i`, of `Morph|Megamorph <cost>`. The cost
      part may be empty, so "Megamorph " followed by anything matches. The two
      alternatives differ in their second letter, so at most one starts at any
      position. */
  function MorphFrom(text: string, i: nat): Option<string>
    requires i <= |text|
    decreases |text| - i
  {
    if i == |text| then None
    else if OccursAt(text, "Morph", i) then Some("Morph")
    else if OccursAt(text, "Megamorph ", i) then Some("Megamorph")
    else MorphFrom(text, i + 1)
  }

  /** The first word of the Morph search's match, if there is one. */
  function MorphSearch(text: string): Option<string>
  {
    MorphFrom(text, 0)
  }

  /** One of the two alternatives starts at `j`. */
  predicate MorphAt(text: string, j: int)
  {
    OccursAt(text, "Morph", j) || OccursAt(text, "Megamorph ", j)
  }

  lemma {:induction false} MorphFromNone(text: string, i: nat)
    requires i <= |text|
    ensures MorphFrom(text, i) == None <==> forall j :: i <= j ==> !MorphAt(text, j)
    decreases |text| - i
  {
    if i < |text| {
      MorphFromNone(text, i + 1);
      if MorphFrom(text, i) == None {
        forall j | i <= j ensures !MorphAt(text, j) {
          if j > i {
            assert i + 1 <= j;
          }
        }
      }
      if forall j :: i <= j ==> !MorphAt(text, j) {
        assert !MorphAt(text, i);
      }
    } else {
      forall j | i <= j ensures !MorphAt(text, j) {
      }
    }
  }

  /** "Megamorph " and "Morph" never start at the same position: their second
      letters differ. */
  lemma MorphAlternativesDiffer(text: string, i: nat)
    ensures OccursAt(text, "Megamorph ", i) ==> !OccursAt(text, "Morph", i)
  {
    if OccursAt(text, "Megamorph ", i) {
      var long := text[i..i + 10];
      assert long[1] == 'e';
      var short := text[i..i + 5];
      assert short[1] == long[1];
      assert short[1] != "Morph"[1];
    }
  }

  /** The search answers with the alternative at the leftmost position where
      either starts. */
  lemma {:induction false} MorphFromLeftmost(text: string, i: nat)
    requires i <= |text|
    requires MorphFrom(text, i).Some?
    ensures exists j :: i <= j && MorphAt(text, j) && (forall l :: i <= l < j ==> !MorphAt(text, l))
                        && MorphFrom(text, i).value == (if OccursAt(text, "Morph", j) then "Morph" else "Megamorph")
    decreases |text| - i
  {
    if MorphAt(text, i) {
      MorphAlternativesDiffer(text, i);
      assert forall l :: i <= l < i ==> !MorphAt(text, l);
    } else {
      MorphFromLeftmost(text, i + 1);
      var j :| i + 1 <= j && MorphAt(text, j) && (forall l :: i + 1 <= l < j ==> !MorphAt(text, l))
               && MorphFrom(text, i + 1).value == (if OccursAt(text, "Morph", j) then "Morph" else "Megamorph");
      assert forall l :: i <= l < j ==> !MorphAt(text, l);
    }
  }

  /** The search finds nothing exactly when the text holds neither "Morph"
      nor "Megamorph "; otherwise it names the alternative that starts first. */
  lemma MorphSearchFinds(text: string)
    ensures MorphSearch(text) == None <==> !Contains(text, "Morph") && !Contains(text, "Megamorph ")
    ensures MorphSearch(text).Some? ==>
              exists j :: MorphAt(text, j) && (forall l :: 0 <= l < j ==> !MorphAt(text, l))
                          && MorphSearch(text).value == (if OccursAt(text, "Morph", j) then "Morph" else "Megamorph")
  {
    MorphFromNone(text, 0);
    ContainsAt(text, "Morph");
    ContainsAt(text, "Megamorph ");
    if Contains(text, "Morph") {
      var j :| OccursAt(text, "Morph", j);
      assert MorphAt(text, j);
    }
    if Contains(text, "Megamorph ") {
      var j :| OccursAt(text, "Megamorph ", j);
      assert MorphAt(text, j);
    }
    if MorphSearch(text).Some? {
      MorphFromLeftmost(text, 0);
    }
  }

  /** Every keyword the parser records for a text: the printed ones, then
      the Morph or Megamorph the search finds. */
  function KeywordsOf(table: seq<string>, text: string): seq<string>
  {
    PrintedKeywords(table, text) + (match MorphSearch(text) case Some(k) => [k] case None => [])
  }

  lemma KeywordsOfAreKeywords(table: seq<string>, text: string)
    requires "Morph" in table && "Megamorph" in table
    ensures forall k :: k in KeywordsOf(table, text) ==> k in table
  {
    PrintedKeywordsAreKeywords(table, text);
    if MorphSearch(text).Some? {
      MorphFromLeftmost(text, 0);
    }
  }

  /** The keyword pass of Card.__parseText (card.py:194-223). */
  method ParseKeywords(table: seq<string>, text: string) returns (keywords: seq<string>)
    ensures keywords == KeywordsOf(table, text)
  {
    var lines := Split(text, '\n');
    var things: seq<string> := [];
    var validLine := true;
    keywords := [];
    var i := 0;
    while i < |lines|
      invariant 0 <= i <= |lines|
      invariant Scan(things, validLine, keywords) == ScanLines(table, lines, i)
    {
      var words := Split(lines[i], ',');
      var j := 0;
      while j < |words|
        invariant 0 <= j <= |words|
        invariant Scan(things, validLine, keywords) == ScanClauses(table, ScanLines(table, lines, i), words, j)
      {
        var word := words[j];
        if |word| > 0 && word[0] == ' ' {
          word := word[1..];
        }
        word := Capitalize(RStrip(word));
        if word in table {
          things := things + [word];
        } else {
          validLine := false;
        }
        j := j + 1;
      }
      if validLine {
        keywords := keywords + things;
      }
      i := i + 1;
    }
    var morph := MorphSearch(text);
    if morph.Some? {
      keywords := keywords + [morph.value];
    }
  }

  // ---------------------------------------------------------------------------
  // Power/toughness bonus words: [+-][1-9][0-9]*/[+-][1-9][0-9]*
  // ---------------------------------------------------------------------------

  predicate IsSign(c: char)
  {
    c == '+' || c == '-'
  }

  /** The value of a string of decimal digits. */
  function DigitsValue(ds: string): nat
    requires forall k :: 0 <= k < |ds| ==> IsDigit(ds[k])
  {
    if ds == [] then 0
    else
      var d := ds[|ds| - 1];
      assert IsDigit(d);
      DigitsValue(ds[..|ds| - 1]) * 10 + (d as int - '0' as int)
  }

  /** `[+-][1-9][0-9]*` matched at the start of `s`: the number it denotes
      (as `int` reads it) and the length of the match. */
  function SignedPrefix(s: string): Option<(int, nat)>
  {
    if |s| >= 2 && IsSign(s[0]) && '1' <= s[1] <= '9' then
      var e := DigitsEnd(s, 1);
      var magnitude: int := DigitsValue(s[1..e]);
      var value: int := if s[0] == '-' then -magnitude else magnitude;
      Some((value, e))
    else None
  }

  /** `ptPattern.match(word)`: the bonus a word starting with `+P/+T` gives. */
  function PtMatch(word: string): Option<(int, int)>
  {
    match SignedPrefix(word)
    case None => None
    case Some((p, e)) =>
      if e < |word| && word[e] == '/' then
        match SignedPrefix(word[e + 1..])
        case None => None
        case Some((t, _)) => Some((p, t))
      else None
  }

  function DigitChar(d: nat): char
    requires d < 10
  {
    ('0' as int + d) as char
  }

  /** The decimal numeral of a positive number, no leading zero. */
  function DecimalText(n: nat): (s: string)
    requires n > 0
    ensures |s| > 0 && '1' <= s[0] <= '9'
    ensures forall k :: 0 <= k < |s| ==> IsDigit(s[k])
  {
    if n < 10 then [DigitChar(n)] else DecimalText(n / 10) + [DigitChar(n % 10)]
  }

  /** A non-zero bonus as an anthem prints it: `+N` or `-N`. */
  function SignedText(n: int): string
    requires n != 0
  {
    (if n < 0 then "-" else "+") + DecimalText(if n < 0 then -n else n)
  }

  lemma {:induction false} DecimalTextValue(n: nat)
    requires n > 0
    ensures DigitsValue(DecimalText(n)) == n
  {
    if n >= 10 {
      DecimalTextValue(n / 10);
      var s := DecimalText(n);
      assert s[..|s| - 1] == DecimalText(n / 10);
    }
  }

  /** `int(s)` for a string that is an optional sign and at least one
      decimal digit; None for any other string, where `int` raises
      ValueError. */
  function ParseInt(s: string): Option<int>
  {
    var start := if |s| > 0 && (s[0] == '+' || s[0] == '-') then 1 else 0;
    if start < |s| && forall k :: start <= k < |s| ==> IsDigit(s[k]) then
      var digits := s[start..];
      assert forall k :: 0 <= k < |digits| ==> IsDigit(digits[k]) by {
        forall k | 0 <= k < |digits| ensures IsDigit(digits[k]) {
          assert digits[k] == s[start + k];
        }
      }
      var m: int := DigitsValue(digits);
      Some(if start == 1 && s[0] == '-' then -m else m)
    else None
  }

  /** A positive number written in decimal reads back as itself. */
  lemma ParseIntDecimal(n: nat)
    requires n > 0
    ensures ParseInt(DecimalText(n)) == Some(n as int)
  {
    var t := DecimalText(n);
    DecimalTextValue(n);
    assert t[0..] == t;
  }


  lemma SignedPrefixOfText(n: int, rest: string)
    requires n != 0
    requires rest == [] || !IsDigit(rest[0])
    ensures SignedPrefix(SignedText(n) + rest) == Some((n, |SignedText(n)|))
  {
    var m := if n < 0 then -n else n;
    var d := DecimalText(m);
    var s := SignedText(n) + rest;
    DigitsEndOf(s, |SignedText(n)|);
    DecimalTextValue(m);
    assert s[1..|SignedText(n)|] == d;
  }

  /** The digit run from 1 ends where the numeral does. */
  lemma DigitsEndOf(s: string, e: nat)
    requires 1 <= e <= |s|
    requires forall k :: 1 <= k < e ==> IsDigit(s[k])
    requires e == |s| || !IsDigit(s[e])
    ensures DigitsEnd(s, 1) == e
  {
    DigitsEndFrom(s, 1, e);
  }

  lemma {:induction false} DigitsEndFrom(s: string, i: nat, e: nat)
    requires i <= e <= |s|
    requires forall k :: i <= k < e ==> IsDigit(s[k])
    requires e == |s| || !IsDigit(s[e])
    ensures DigitsEnd(s, i) == e
    decreases e - i
  {
    if i < e {
      DigitsEndFrom(s, i + 1, e);
    }
  }

  /** Reading back a printed bonus gives the bonus: `+P/+T` followed by
      anything that does not continue the toughness numeral. */
  lemma PtMatchRoundTrip(p: int, t: int, rest: string)
    requires p != 0 && t != 0
    requires rest == [] || !IsDigit(rest[0])
    ensures PtMatch(SignedText(p) + "/" + SignedText(t) + rest) == Some((p, t))
  {
    var w := SignedText(p) + "/" + SignedText(t) + rest;
    var e := |SignedText(p)|;
    assert w == SignedText(p) + ("/" + SignedText(t) + rest);
    SignedPrefixOfText(p, "/" + SignedText(t) + rest);
    assert w[e] == '/';
    assert w[e + 1..] == SignedText(t) + rest;
    SignedPrefixOfText(t, rest);
  }

  // ---------------------------------------------------------------------------
  // The anthem decomposition
  // ---------------------------------------------------------------------------

  /** What a card's anthem does: whether it has one, the types it names (with
      "Other" first when it spares its source), the bonus and the keywords it
      grants. */
  datatype Anthem = Anthem(has: bool, types: seq<string>, power: int, toughness: int, keywords: seq<string>)

  const NoAnthem: Anthem := Anthem(false, [], 0, 0, [])

  /** A type word of the clause: leading space, a trailing comma and a plural
      "s" removed, then stripped and capitalised. */
  function TypeWord(w: string): string
  {
    var a := if |w| > 0 && w[0] == ' ' then w[1..] else w;
    var b := if EndsWith(a, ",") then a[..|a| - 1] else a;
    var c := if EndsWith(b, "s") then b[..|b| - 1] else b;
    Capitalize(RStrip(c))
  }

  /** The types named before the first "you" or "get", skipping "and". */
  function AffectedTypes(words: seq<string>): seq<string>
  {
    if words == [] || words[0] == "you" || words[0] == "get" then []
    else if words[0] == "and" then AffectedTypes(words[1..])
    else [TypeWord(words[0])] + AffectedTypes(words[1..])
  }

  /** The bonus of the first word that starts with `±P/±T`, else none. */
  function FirstPt(words: seq<string>): (int, int)
  {
    if words == [] then (0, 0)
    else match PtMatch(words[0])
      case Some(pt) => pt
      case None => FirstPt(words[1..])
  }

  /** The first `n` keywords, in order, whose lower-case form occurs in the clause. */
  function GrantedKeywords(table: seq<string>, clause: string, n: nat): seq<string>
    requires n <= |table|
  {
    if n == 0 then []
    else GrantedKeywords(table, clause, n - 1)
         + (if Contains(clause, Lower(table[n - 1])) then [table[n - 1]] else [])
  }

  /** The clause split on spaces, with its first empty word dropped. */
  function AnthemWords(clause: string): seq<string>
  {
    var words := Split(clause, ' ');
    if "" in words then RemoveFirst(words, "") else words
  }

  /** The anthem a matched clause describes, for a card with rules text `text`
      (card.py:244-311). */
  function AnthemOf(table: seq<string>, clause: string, text: string): Anthem
  {
    if Contains(clause, "until end of turn") then NoAnthem
    else if Contains(text, "\"" + clause + "\"") then NoAnthem
    else
      var words := AnthemWords(clause);
      var other := |words| > 0 && words[0] == "Other";
      var rest := if other then words[1..] else words;
      var pt := FirstPt(rest);
      Anthem(true, (if other then ["Other"] else []) + AffectedTypes(rest),
             pt.0, pt.1, GrantedKeywords(table, clause, |table|))
  }

  /** A clause that only lasts until end of turn, or that the text quotes (it
      belongs to a token or emblem the card makes), gives this card no anthem;
      every other clause does. */
  lemma AnthemDiscarded(table: seq<string>, clause: string, text: string)
    ensures AnthemOf(table, clause, text).has <==>
            !Contains(clause, "until end of turn") && !Contains(text, "\"" + clause + "\"")
    ensures !AnthemOf(table, clause, text).has ==> AnthemOf(table, clause, text) == NoAnthem
  {
  }

  lemma {:induction false} GrantedKeywordsIn(table: seq<string>, clause: string, n: nat, k: string)
    requires n <= |table|
    ensures k in GrantedKeywords(table, clause, n) <==> k in table[..n] && Contains(clause, Lower(k))
  {
    if n > 0 {
      GrantedKeywordsIn(table, clause, n - 1, k);
      assert table[..n] == table[..n - 1] + [table[n - 1]];
    }
  }

  /** The anthem grants exactly the keywords whose lower-case names occur in
      the clause, in the table's order. */
  lemma AnthemKeywordsExact(table: seq<string>, clause: string, text: string, k: string)
    requires AnthemOf(table, clause, text).has
    ensures k in AnthemOf(table, clause, text).keywords <==> k in table && Contains(clause, Lower(k))
  {
    GrantedKeywordsIn(table, clause, |table|, k);
    assert table[..|table|] == table;
  }

  /** A leading "Other" becomes the first type and is not read as a type
      itself; otherwise the types are those the words name. */
  lemma AnthemOtherFirst(table: seq<string>, clause: string, text: string)
    requires AnthemOf(table, clause, text).has
    ensures var words := AnthemWords(clause);
            var a := AnthemOf(table, clause, text);
            if |words| > 0 && words[0] == "Other"
            then a.types == ["Other"] + AffectedTypes(words[1..])
            else a.types == AffectedTypes(words)
  {
  }

  /** Nothing after the first "you" or "get" is read as a type. */
  lemma {:induction false} AffectedTypesStop(words: seq<string>, i: nat)
    requires i < |words| && (words[i] == "you" || words[i] == "get")
    ensures AffectedTypes(words) == AffectedTypes(words[..i])
  {
    if i == 0 {
      assert words[..0] == [];
    } else if words[0] != "you" && words[0] != "get" {
      AffectedTypesStop(words[1..], i - 1);
      assert words[1..][..i - 1] == words[..i][1..];
    }
  }

  /** Every type read is TypeWord of a word that is not "and". */
  lemma {:induction false} AffectedTypesAre(words: seq<string>, t: string)
    requires t in AffectedTypes(words)
    ensures exists i :: 0 <= i < |words| && words[i] != "and" && t == TypeWord(words[i])
  {
    if t in AffectedTypes(words[1..]) {
      AffectedTypesAre(words[1..], t);
      var i :| 0 <= i < |words[1..]| && words[1..][i] != "and" && t == TypeWord(words[1..][i]);
      assert words[i + 1] == words[1..][i];
    } else {
      assert words[0] != "and" && t == TypeWord(words[0]);
    }
  }

  /** A clause ends in a period (the pattern demands one), so it has a
      non-empty last word, and the list of words is never empty. */
  lemma AnthemWordsNonEmpty(clause: string)
    requires EndsWith(clause, ".")
    ensures |AnthemWords(clause)| > 0
  {
    var words := Split(clause, ' ');
    assert clause[|clause| - 1] == '.';
    SplitLastPart(clause, ' ');
    var last := words[|words| - 1];
    if "" in words {
      var i :| 0 <= i < |words| && words[i] == "";
      assert i != |words| - 1;
    }
  }

  /** When a string does not end in the separator, its last part is not empty. */
  lemma {:induction false} SplitLastPart(s: string, sep: char)
    requires s != [] && s[|s| - 1] != sep
    ensures Split(s, sep)[|Split(s, sep)| - 1] != []
  {
    if |s| > 1 {
      SplitLastPart(s[1..], sep);
    }
  }

  /** The type loop of card.py:269-290. */
  method ReadTypes(words: seq<string>) returns (types: seq<string>)
    ensures types == AffectedTypes(words)
  {
    types := [];
    var i := 0;
    while i < |words|
      invariant 0 <= i <= |words|
      invariant AffectedTypes(words) == types + AffectedTypes(words[i..])
    {
      var word := words[i];
      if word == "you" || word == "get" {
        break;
      } else if word != "and" {
        types := types + [TypeWord(word)];
      }
      assert words[i..][1..] == words[i + 1..];
      i := i + 1;
    }
  }

  /** The bonus loop of card.py:293-303. */
  method ReadBonus(words: seq<string>) returns (power: int, toughness: int)
    ensures (power, toughness) == FirstPt(words)
  {
    power, toughness := 0, 0;
    var i := 0;
    while i < |words|
      invariant 0 <= i <= |words|
      invariant FirstPt(words) == FirstPt(words[i..])
    {
      var pt := PtMatch(words[i]);
      if pt.Some? {
        power, toughness := pt.value.0, pt.value.1;
        return;
      }
      assert words[i..][1..] == words[i + 1..];
      i := i + 1;
    }
  }

  /** The granted-keyword loop of card.py:306-311. */
  method ReadGranted(table: seq<string>, clause: string) returns (granted: seq<string>)
    ensures granted == GrantedKeywords(table, clause, |table|)
  {
    granted := [];
    var k := 0;
    while k < |table|
      invariant 0 <= k <= |table|
      invariant granted == GrantedKeywords(table, clause, k)
    {
      if Contains(clause, Lower(table[k])) {
        granted := granted + [table[k]];
      }
      k := k + 1;
    }
  }

  /** The anthem half of Card.__parseText, once the clause has been found. */
  method DecomposeAnthem(table: seq<string>, clause: string, text: string) returns (a: Anthem)
    ensures a == AnthemOf(table, clause, text)
  {
    if Contains(clause, "until end of turn") || Contains(text, "\"" + clause + "\"") {
      return NoAnthem;
    }
    var words := Split(clause, ' ');
    if "" in words {
      words := RemoveFirst(words, "");
    }
    var other := |words| > 0 && words[0] == "Other";
    if other {
      words := words[1..];
    }
    var types := ReadTypes(words);
    if other {
      types := ["Other"] + types;
    }
    var power, toughness := ReadBonus(words);
    var granted := ReadGranted(table, clause);
    a := Anthem(true, types, power, toughness, granted);
  }

  // ---------------------------------------------------------------------------
  // The type line of a token copy (card.py:1058-1072)
  // ---------------------------------------------------------------------------

  /** The words of `names[..n]` that are supertypes (`super`) or are not, each
      followed by a space. */
  function Part(names: seq<string>, n: nat, super: bool): string
    requires n <= |names|
  {
    if n == 0 then ""
    else Part(names, n - 1, super) + (if (names[n - 1] in SUPERTYPES) == super then names[n - 1] + " " else "")
  }

  /** The type line of a token copy: unchanged when it already says Token,
      otherwise the supertypes, then "Token", then the other words. */
  function TokenTypeOf(t: string): string
  {
    if Contains(t, "Token") then t
    else
      var names := Split(t, ' ');
      RStrip(Part(names, |names|, true) + "Token " + Part(names, |names|, false))
  }

  /** Card.copy's construction of the new type line, with its two loops. */
  method TokenType(t: string) returns (r: string)
    ensures r == TokenTypeOf(t)
  {
    if Contains(t, "Token") {
      return t;
    }
    var line := "";
    var names := Split(t, ' ');
    var i := 0;
    while i < |names|
      invariant 0 <= i <= |names|
      invariant line == Part(names, i, true)
    {
      if names[i] in SUPERTYPES {
        line := line + names[i] + " ";
      }
      i := i + 1;
    }
    line := line + "Token ";
    ghost var front := line;
    i := 0;
    while i < |names|
      invariant 0 <= i <= |names|
      invariant line == front + Part(names, i, false)
    {
      if names[i] !in SUPERTYPES {
        line := line + names[i] + " ";
      }
      i := i + 1;
    }
    r := RStrip(line);
  }

  /** A string that starts with a non-space-ending prefix keeps that prefix
      when stripped. */
  lemma {:induction false} RStripKeepsPrefix(x: string, y: string)
    requires x != [] && !IsSpace(x[|x| - 1])
    ensures x <= RStrip(x + y)
    decreases |y|
  {
    if y != [] && IsSpace(y[|y| - 1]) {
      assert (x + y)[..|x + y| - 1] == x + y[..|y| - 1];
      RStripKeepsPrefix(x, y[..|y| - 1]);
    }
  }

  /** Copying a copy keeps its type line. */
  lemma TokenTypeIdempotent(t: string)
    ensures TokenTypeOf(TokenTypeOf(t)) == TokenTypeOf(t)
  {
    TokenTypeSaysToken(t);
  }

  /** A token copy's type line always says Token. */
  lemma TokenTypeSaysToken(t: string)
    ensures Contains(TokenTypeOf(t), "Token")
  {
    if !Contains(t, "Token") {
      var names := Split(t, ' ');
      StrippedTokenLine(Part(names, |names|, true), Part(names, |names|, false));
    }
  }

  /** Stripping trailing white space from "<p>Token <q>" keeps the Token. */
  lemma StrippedTokenLine(p: string, q: string)
    ensures Contains(RStrip(p + "Token " + q), "Token")
  {
    var front := p + "Token";
    assert p + "Token " + q == front + (" " + q);
    assert front[|front| - 1] == 'n';
    RStripKeepsPrefix(front, " " + q);
    var r := RStrip(front + (" " + q));
    assert "Token" <= "Token";
    ContainsConcat(p, "Token", "Token");
    assert r == front + r[|front|..];
    ContainsConcat(front, r[|front|..], "Token");
  }

  /** A two-word type line whose first word is a supertype gets "Token"
      between the two: a "Legendary Creature" is copied as a "Legendary
      Token Creature". */
  lemma TokenTypeOfTwoWords(t: string, a: string, b: string)
    requires !Contains(t, "Token")
    requires Split(t, ' ') == [a, b]
    requires a in SUPERTYPES && b !in SUPERTYPES
    requires b != [] && !IsSpace(b[|b| - 1])
    ensures TokenTypeOf(t) == a + " Token " + b
  {
    var names := [a, b];
    assert Part(names, 1, true) == a + " ";
    assert Part(names, 1, false) == "";
    assert Part(names, 2, true) == a + " ";
    assert Part(names, 2, false) == b + " ";
    assert a + " " + "Token " + (b + " ") == (a + " Token " + b) + " ";
    RStripOfNonSpaceEnd(" ", a + " Token " + b);
  }
}
