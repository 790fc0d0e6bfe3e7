/**
 * Mana costs: the cost grammar a card's constructor checks, and the colour
 * string it derives from the cost (card.py, Card.__init__).
 */
module Cost {
  import opened Text

  predicate IsDigit(c: char)
  {
    '0' <= c <= '9'
  }

  /** One of the letters of `[WUBRGC]`. */
  predicate IsManaSymbol(c: char)
  {
    c == 'W' || c == 'U' || c == 'B' || c == 'R' || c == 'G' || c == 'C'
  }

  /** The index just past the run of digits that starts at `i`. */
  function DigitsEnd(s: string, i: nat): (j: nat)
    requires i <= |s|
    ensures i <= j <= |s|
    ensures forall k :: i <= k < j ==> IsDigit(s[k])
    ensures j == |s| || !IsDigit(s[j])
    decreases |s| - i
  {
    if i < |s| && IsDigit(s[i]) then DigitsEnd(s, i + 1) else i
  }

  /** `t` as a whole is `X?[1-9]?[0-9]*[WUBRGC]*`, read left to right: an
      optional X, then every digit, then nothing but mana symbols. */
  predicate CostBody(t: string)
  {
    var afterX := if |t| > 0 && t[0] == 'X' then 1 else 0;
    forall k :: DigitsEnd(t, afterX) <= k < |t| ==> IsManaSymbol(t[k])
  }

  /** `re.match("^X?[1-9]?[0-9]*[WUBRGC]*$", s)` succeeds. Python's `$` also
      matches just before a newline that ends the string. */
  predicate MatchesCostPattern(s: string)
  {
    CostBody(s) || (|s| > 0 && s[|s| - 1] == '\n' && CostBody(s[..|s| - 1]))
  }

  /** The constructor accepts a cost matching the pattern, or the sentinel
      "TRANSFORM" used for a linked back face (card.py:100). */
  predicate ValidCost(cost: string)
  {
    MatchesCostPattern(cost) || cost == "TRANSFORM"
  }

  // ---------------------------------------------------------------------------
  // The grammar as a decomposition: an independent statement of the pattern
  // ---------------------------------------------------------------------------

  /** `t` splits at `p <= q` into an optional X, a digit string and a string of
      mana symbols. */
  predicate SplitsAsCost(t: string, p: int, q: int)
  {
    && 0 <= p <= q <= |t|
    && (t[..p] == "" || t[..p] == "X")
    && (forall k :: p <= k < q ==> IsDigit(t[k]))
    && (forall k :: q <= k < |t| ==> IsManaSymbol(t[k]))
  }

  /** The left-to-right reading agrees with the decomposition, both ways. */
  lemma CostBodyIsGrammar(t: string)
    ensures CostBody(t) <==> exists p, q :: SplitsAsCost(t, p, q)
  {
    var afterX := if |t| > 0 && t[0] == 'X' then 1 else 0;
    var d := DigitsEnd(t, afterX);
    if CostBody(t) {
      assert t[..afterX] == "" || t[..afterX] == "X";
      assert SplitsAsCost(t, afterX, d);
    }
    if exists p, q :: SplitsAsCost(t, p, q) {
      var p, q :| SplitsAsCost(t, p, q);
      // An X is never a digit or a mana symbol, so it is taken exactly when present;
      // a mana symbol is never a digit, so the digit run ends exactly at q.
      assert p == afterX;
      DigitsEndCovers(t, afterX, q);
    }
  }

  /** The digit run from `i` reaches at least as far as any stretch of digits from `i`. */
  lemma {:induction false} DigitsEndCovers(s: string, i: nat, q: nat)
    requires i <= q <= |s|
    requires forall k :: i <= k < q ==> IsDigit(s[k])
    ensures DigitsEnd(s, i) >= q
    decreases q - i
  {
    if i < q {
      DigitsEndCovers(s, i + 1, q);
    }
  }

  // ---------------------------------------------------------------------------
  // Colour
  // ---------------------------------------------------------------------------

  /** The word for one colour followed by a space, when its letter is present. */
  function Piece(present: bool, word: string): string
  {
    if present then word + " " else ""
  }

  /** The colour words concatenated by card.py:106-119, in the order White,
      Blue, Black, Red, Green, each with a trailing space. */
  function ColourWords(cost: string): string
  {
    Piece('W' in cost, "White") + Piece('U' in cost, "Blue") + Piece('B' in cost, "Black")
    + Piece('R' in cost, "Red") + Piece('G' in cost, "Green")
  }

  /** The colour string of a cost: the words stripped of the last space, or
      "Colorless" when there are none. */
  function ColourOf(cost: string): string
  {
    var built := ColourWords(cost);
    RStrip(if built == "" then "Colorless" else built)
  }

  /** The name of one colour, as a list of zero or one names. */
  function Named(present: bool, word: string): seq<string>
  {
    if present then [word] else []
  }

  /** The colour names in their fixed order, filtered by the letters present. */
  function ColourNames(cost: string): seq<string>
  {
    Named('W' in cost, "White") + Named('U' in cost, "Blue") + Named('B' in cost, "Black")
    + Named('R' in cost, "Red") + Named('G' in cost, "Green")
  }

  /** Each name followed by one space, all run together. */
  function Spaced(names: seq<string>): string
  {
    if names == [] then "" else names[0] + " " + Spaced(names[1..])
  }

  lemma {:induction false} SpacedIsJoin(names: seq<string>)
    requires names != []
    ensures Spaced(names) == Join(names, " ") + " "
  {
    if |names| > 1 {
      SpacedIsJoin(names[1..]);
    }
  }

  lemma {:induction false} JoinEndsWithLast(names: seq<string>, sep: string)
    requires names != [] && names[|names| - 1] != []
    ensures Join(names, sep) != []
    ensures Join(names, sep)[|Join(names, sep)| - 1] == names[|names| - 1][|names[|names| - 1]| - 1]
  {
    if |names| > 1 {
      JoinEndsWithLast(names[1..], sep);
    }
  }

  lemma SpacedConcat(a: seq<string>, b: seq<string>)
    ensures Spaced(a + b) == Spaced(a) + Spaced(b)
  {
    if a != [] {
      assert (a + b)[1..] == a[1..] + b;
      SpacedConcat(a[1..], b);
    } else {
      assert a + b == b;
    }
  }

  lemma SpacedNamed(present: bool, word: string)
    ensures Spaced(Named(present, word)) == Piece(present, word)
  {
    if present {
      assert Spaced([word]) == word + " " + Spaced([]);
    }
  }

  lemma ColourWordsSpaced(cost: string)
    ensures ColourWords(cost) == Spaced(ColourNames(cost))
  {
    var w, u, b := Named('W' in cost, "White"), Named('U' in cost, "Blue"), Named('B' in cost, "Black");
    var r, g := Named('R' in cost, "Red"), Named('G' in cost, "Green");
    SpacedNamed('W' in cost, "White");
    SpacedNamed('U' in cost, "Blue");
    SpacedNamed('B' in cost, "Black");
    SpacedNamed('R' in cost, "Red");
    SpacedNamed('G' in cost, "Green");
    SpacedConcat(w, u);
    SpacedConcat(w + u, b);
    SpacedConcat(w + u + b, r);
    SpacedConcat(w + u + b + r, g);
  }

  /** No colour name ends in white space. */
  lemma ColourNameEnds(w: string)
    requires w in ["White", "Blue", "Black", "Red", "Green"]
    ensures w != [] && !IsSpace(w[|w| - 1])
  {
    if w == "White" {
      assert w[4] == 'e';
    } else if w == "Blue" {
      assert w[3] == 'e';
    } else if w == "Black" {
      assert w[4] == 'k';
    } else if w == "Red" {
      assert w[2] == 'd';
    } else {
      assert w[4] == 'n';
    }
  }

  /** The colour is the space-separated list of colour names of the letters in
      the cost, in WUBRG order, or "Colorless" when there are none. */
  lemma ColourOfIsJoinedNames(cost: string)
    ensures ColourOf(cost) == if ColourNames(cost) == [] then "Colorless" else Join(ColourNames(cost), " ")
  {
    var names := ColourNames(cost);
    ColourWordsSpaced(cost);
    if names == [] {
      assert RStrip("Colorless") == "Colorless" by {
        assert !IsSpace("Colorless"[8]);
      }
    } else {
      SpacedIsJoin(names);
      var last := names[|names| - 1];
      assert last in ["White", "Blue", "Black", "Red", "Green"];
      ColourNameEnds(last);
      JoinEndsWithLast(names, " ");
      var joined := Join(names, " ");
      RStripOfNonSpaceEnd(" ", joined);
      assert ColourWords(cost) != "";
    }
  }

  /** The "TRANSFORM" sentinel contains an R, so a back face built with it is red. */
  lemma TransformSentinelIsRed()
    ensures ColourOf("TRANSFORM") == "Red"
  {
    assert "TRANSFORM"[1] == 'R';
    assert ColourWords("TRANSFORM") == "Red ";
    assert "Red "[..3] == "Red";
    assert RStrip("Red") == "Red" by {
      assert !IsSpace("Red"[2]);
    }
  }
}
