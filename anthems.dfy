/**
 * The continuous-effect pass of play.py (anthem and applyAnthems): every
 * field card's anthem bonuses are cleared, then every field card with an
 * anthem adds its power, toughness and keywords to each field card it
 * reaches. A card is reached when one of the anthem's type words, lowered,
 * occurs in its lowered type line, subtype or colour; the first such word
 * applies the bonus and ends the search, and an anthem whose words include
 * "Other" skips its own card.
 */
module Anthems {
  import opened Wrappers
  import opened Lists
  import opened Text
  import opened Cards
  import opened Lookup
  import opened Boards

  /** What one anthem adds to a card it reaches. */
  datatype Grant = Grant(power: int, toughness: int, keywords: seq<string>)

  const NoGrant: Grant := Grant(0, 0, [])

  function Plus(g: Grant, h: Grant): Grant
  {
    Grant(g.power + h.power, g.toughness + h.toughness, g.keywords + h.keywords)
  }

  /** anthemPowerBonus, anthemToughnessBonus and anthemKeywordMod, in that order. */
  function Receive(c: Card, g: Grant): Card
  {
    AddAnthemKeywords(AddAnthemToughness(AddAnthemPower(c, g.power), g.toughness), g.keywords)
  }

  /** The grant received k times. */
  function Times(g: Grant, k: nat): Grant
  {
    Grant(k * g.power, k * g.toughness, Repeat(g.keywords, k))
  }

  function Repeat(s: seq<string>, k: nat): seq<string>
    decreases k
  {
    if k == 0 then [] else s + Repeat(s, k - 1)
  }

  lemma TimesSucc(g: Grant, k: nat)
    ensures Plus(g, Times(g, k)) == Times(g, k + 1)
  {
    assert (k + 1) * g.power == g.power + k * g.power;
    assert (k + 1) * g.toughness == g.toughness + k * g.toughness;
  }

  lemma {:induction false} RepeatNothing(k: nat)
    ensures Repeat([], k) == []
    decreases k
  {
    if k > 0 {
      RepeatNothing(k - 1);
    }
  }

  lemma TimesNothing(k: nat)
    ensures Times(NoGrant, k) == NoGrant
  {
    RepeatNothing(k);
  }

  /** The grant of a card's anthem, read from the face it shows. */
  function GrantOf(c: Card): Grant
  {
    Grant(Shown(c).anthem.power, Shown(c).anthem.toughness, Shown(c).anthem.keywords)
  }

  /** The source reads its anthem through the accessors; for a card with an
      anthem they give the shown face's anthem. */
  lemma GrantOfAccessors(c: Card)
    requires HasAnthem(c)
    ensures AnthemTypes(c) == Some(Shown(c).anthem.types)
    ensures Grant(AnthemPower(c).value, AnthemToughness(c).value, AnthemKeywords(c)) == GrantOf(c)
  {
  }

  lemma ReceiveTwice(c: Card, g: Grant, h: Grant)
    ensures Receive(Receive(c, g), h) == Receive(c, Plus(g, h))
  {
    assert c.anthemKeywordMod + g.keywords + h.keywords == c.anthemKeywordMod + (g.keywords + h.keywords);
  }

  lemma ReceiveNothing(c: Card)
    ensures Receive(c, NoGrant) == c
  {
    assert c.anthemKeywordMod + [] == c.anthemKeywordMod;
  }

  /** Bonuses change neither the face shown nor anything resetAnthem keeps. */
  lemma ReceiveKeepsFace(c: Card, g: Grant)
    ensures Shown(Receive(c, g)) == Shown(c)
    ensures ResetAnthem(Receive(c, g)) == ResetAnthem(c)
  {
  }

  lemma ResetKeepsFace(c: Card)
    ensures Shown(ResetAnthem(c)) == Shown(c)
    ensures ResetAnthem(ResetAnthem(c)) == ResetAnthem(c)
  {
  }

  // ---------------------------------------------------------------------------
  // Matching (play.py:804-824)
  // ---------------------------------------------------------------------------

  /** `type.lower()` occurs in the lowered type line, subtype or colour. */
  predicate Affects(t: string, thing: Card)
  {
    || Contains(Lower(TypeLine(thing)), Lower(t))
    || Contains(Lower(Subtype(thing)), Lower(t))
    || Contains(Lower(Color(thing)), Lower(t))
  }

  /** Some type word of the anthem affects the card. */
  predicate Hits(types: seq<string>, thing: Card)
  {
    exists i :: 0 <= i < |types| && Affects(types[i], thing)
  }

  /** The inner loop: the first matching type word applies the grant and
      breaks. */
  function AffectOnce(types: seq<string>, thing: Card, g: Grant): Card
    decreases |types|
  {
    if types == [] then thing
    else if Affects(types[0], thing) then Receive(thing, g)
    else AffectOnce(types[1..], thing, g)
  }

  /** A card receives the grant exactly once if some type word matches, and
      is untouched otherwise. */
  lemma {:induction false} AffectOnceHits(types: seq<string>, thing: Card, g: Grant)
    ensures AffectOnce(types, thing, g) == if Hits(types, thing) then Receive(thing, g) else thing
    decreases |types|
  {
    if types != [] {
      AffectOnceHits(types[1..], thing, g);
      if !Affects(types[0], thing) {
        if Hits(types, thing) {
          var i :| 0 <= i < |types| && Affects(types[i], thing);
          assert Affects(types[1..][i - 1], thing);
        }
        if Hits(types[1..], thing) {
          var i :| 0 <= i < |types[1..]| && Affects(types[1..][i], thing);
          assert Affects(types[i + 1], thing);
        }
      } else {
        assert Hits(types, thing) by { assert Affects(types[0], thing); }
      }
    }
  }

  /** Whether the anthem of the card with handle `src` reaches the card with
      handle `h`: the "Other" words skip the source itself. */
  predicate Skips(types: seq<string>, src: nat, h: nat)
  {
    "Other" in types && h == src
  }

  /** `anthem(card)`: the loop over the field, with the anthem's data read
      before the loop. */
  function AnthemFrom(cards: seq<Card>, src: nat, types: seq<string>, g: Grant, todo: seq<nat>): (r: seq<Card>)
    requires Handles(cards, todo)
    ensures |r| == |cards|
    decreases |todo|
  {
    if todo == [] then cards
    else
      var h := todo[0];
      var next := if Skips(types, src, h) then cards else cards[h := AffectOnce(types, cards[h], g)];
      AnthemFrom(next, src, types, g, todo[1..])
  }

  /** One anthem gives each card it reaches its grant once per time the card
      is listed on the field, and changes nothing else. */
  lemma {:induction false} AnthemFromCounts(cards: seq<Card>, src: nat, types: seq<string>, g: Grant, todo: seq<nat>, h: nat)
    requires Handles(cards, todo) && h < |cards|
    ensures AnthemFrom(cards, src, types, g, todo)[h]
            == if !Skips(types, src, h) && Hits(types, cards[h]) then Receive(cards[h], Times(g, multiset(todo)[h])) else cards[h]
    decreases |todo|
  {
    if todo == [] {
      ReceiveNothing(cards[h]);
    } else {
      var x: nat := todo[0];
      var rest: seq<nat> := todo[1..];
      CountCons(todo, h);
      var next := if Skips(types, src, x) then cards else cards[x := AffectOnce(types, cards[x], g)];
      AnthemFromCounts(next, src, types, g, rest, h);
      if x == h && !Skips(types, src, h) {
        AffectOnceHits(types, cards[h], g);
        if Hits(types, cards[h]) {
          OneMoreGrant(types, cards[h], g, multiset(rest)[h]);
        }
      }
    }
  }

  /** A card the anthem reaches still matches after receiving the grant, and
      one more grant adds one to the count. */
  lemma OneMoreGrant(types: seq<string>, c: Card, g: Grant, k: nat)
    requires Hits(types, c)
    ensures Hits(types, Receive(c, g))
    ensures Receive(Receive(c, g), Times(g, k)) == Receive(c, Times(g, k + 1))
  {
    ReceiveKeepsFace(c, g);
    var i :| 0 <= i < |types| && Affects(types[i], c);
    assert Affects(types[i], Receive(c, g));
    ReceiveTwice(c, g, Times(g, k));
    TimesSucc(g, k);
  }

  /** The anthem of the source itself changes no face and nothing that
      resetAnthem keeps. */
  lemma {:induction false} AnthemFromKeepsFaces(cards: seq<Card>, src: nat, types: seq<string>, g: Grant, todo: seq<nat>, h: nat)
    requires Handles(cards, todo) && h < |cards|
    ensures Shown(AnthemFrom(cards, src, types, g, todo)[h]) == Shown(cards[h])
    ensures ResetAnthem(AnthemFrom(cards, src, types, g, todo)[h]) == ResetAnthem(cards[h])
  {
    AnthemFromCounts(cards, src, types, g, todo, h);
    ReceiveKeepsFace(cards[h], Times(g, multiset(todo)[h]));
  }

  // ---------------------------------------------------------------------------
  // applyAnthems (play.py:829-834)
  // ---------------------------------------------------------------------------

  /** The first loop: `card.resetAnthem()` for every field card. */
  function ResetFrom(cards: seq<Card>, todo: seq<nat>): (r: seq<Card>)
    requires Handles(cards, todo)
    ensures |r| == |cards|
    decreases |todo|
  {
    if todo == [] then cards
    else ResetFrom(cards[todo[0] := ResetAnthem(cards[todo[0]])], todo[1..])
  }

  lemma {:induction false} ResetFromCards(cards: seq<Card>, todo: seq<nat>, h: nat)
    requires Handles(cards, todo) && h < |cards|
    ensures ResetFrom(cards, todo)[h] == if h in todo then ResetAnthem(cards[h]) else cards[h]
    decreases |todo|
  {
    if todo != [] {
      var x := todo[0];
      ResetKeepsFace(cards[x]);
      ResetFromCards(cards[x := ResetAnthem(cards[x])], todo[1..], h);
    }
  }

  /** The second loop: `if card.anthem(): anthem(card)` for every field card. */
  function ApplyFrom(cards: seq<Card>, field: seq<nat>, todo: seq<nat>): (r: seq<Card>)
    requires Handles(cards, field) && Handles(cards, todo)
    ensures |r| == |cards|
    decreases |todo|
  {
    if todo == [] then cards
    else
      var s := todo[0];
      var src := cards[s];
      var next := if HasAnthem(src)
                  then AnthemFrom(cards, s, AnthemTypes(src).value,
                                  Grant(AnthemPower(src).value, AnthemToughness(src).value, AnthemKeywords(src)), field)
                  else cards;
      ApplyFrom(next, field, todo[1..])
  }

  /** `applyAnthems()`. */
  function ApplyAnthems(b: Board): (r: Board)
    requires Valid(b)
    ensures Valid(r)
  {
    var reset := ResetFrom(b.cards, b.field);
    b.(cards := ApplyFrom(reset, b.field, b.field))
  }

  // ---------------------------------------------------------------------------
  // The total each card receives
  // ---------------------------------------------------------------------------

  /** Whether the source card with handle s reaches the card with handle h. */
  predicate Reaches(src: Card, s: nat, thing: Card, h: nat)
  {
    HasAnthem(src) && !Skips(Shown(src).anthem.types, s, h) && Hits(Shown(src).anthem.types, thing)
  }

  /** The grants the card with handle h receives from the sources `todo`, in
      order, each once per listing of h on the field: an independent
      statement of what the second loop adds up. */
  function Total(cards: seq<Card>, field: seq<nat>, todo: seq<nat>, h: nat): Grant
    requires Handles(cards, todo) && h < |cards|
    decreases |todo|
  {
    if todo == [] then NoGrant
    else
      var s := todo[0];
      Plus(Times(From(cards[s], s, cards[h], h), multiset(field)[h]), Total(cards, field, todo[1..], h))
  }

  /** What one listing of the card with handle h receives from source s. */
  function From(src: Card, s: nat, thing: Card, h: nat): Grant
  {
    if Reaches(src, s, thing, h) then GrantOf(src) else NoGrant
  }

  /** Cards that show the same faces. */
  predicate SameFaces(c1: seq<Card>, c2: seq<Card>)
  {
    |c1| == |c2| && forall k :: 0 <= k < |c1| ==> Shown(c1[k]) == Shown(c2[k])
  }

  lemma SameFacesHits(types: seq<string>, c: Card, d: Card)
    requires Shown(c) == Shown(d)
    ensures Hits(types, c) == Hits(types, d)
  {
    if Hits(types, c) {
      var i :| 0 <= i < |types| && Affects(types[i], c);
      assert Affects(types[i], d);
    }
    if Hits(types, d) {
      var i :| 0 <= i < |types| && Affects(types[i], d);
      assert Affects(types[i], c);
    }
  }

  /** The totals depend only on the faces the cards show. */
  lemma {:induction false} TotalFaces(c1: seq<Card>, c2: seq<Card>, field: seq<nat>, todo: seq<nat>, h: nat)
    requires SameFaces(c1, c2) && Handles(c1, todo) && h < |c1|
    ensures Total(c1, field, todo, h) == Total(c2, field, todo, h)
    decreases |todo|
  {
    if todo != [] {
      var s := todo[0];
      SameFacesHits(Shown(c1[s]).anthem.types, c1[h], c2[h]);
      TotalFaces(c1, c2, field, todo[1..], h);
    }
  }

  lemma {:induction false} ApplyFromKeepsFaces(cards: seq<Card>, field: seq<nat>, todo: seq<nat>)
    requires Handles(cards, field) && Handles(cards, todo)
    ensures SameFaces(ApplyFrom(cards, field, todo), cards)
    ensures forall k :: 0 <= k < |cards| ==> ResetAnthem(ApplyFrom(cards, field, todo)[k]) == ResetAnthem(cards[k])
    decreases |todo|
  {
    if todo != [] {
      var s := todo[0];
      var src := cards[s];
      if HasAnthem(src) {
        var types := AnthemTypes(src).value;
        var g := Grant(AnthemPower(src).value, AnthemToughness(src).value, AnthemKeywords(src));
        var next := AnthemFrom(cards, s, types, g, field);
        forall k | 0 <= k < |cards|
          ensures Shown(next[k]) == Shown(cards[k]) && ResetAnthem(next[k]) == ResetAnthem(cards[k])
        {
          AnthemFromKeepsFaces(cards, s, types, g, field, k);
        }
        ApplyFromKeepsFaces(next, field, todo[1..]);
      } else {
        ApplyFromKeepsFaces(cards, field, todo[1..]);
      }
    }
  }

  /** The second loop gives every card the total of the grants that reach it. */
  lemma {:induction false} ApplyFromTotal(cards: seq<Card>, field: seq<nat>, todo: seq<nat>, h: nat)
    requires Handles(cards, field) && Handles(cards, todo) && h < |cards|
    ensures ApplyFrom(cards, field, todo)[h] == Receive(cards[h], Total(cards, field, todo, h))
    decreases |todo|
  {
    if todo == [] {
      ReceiveNothing(cards[h]);
    } else {
      var s := todo[0];
      var src := cards[s];
      var here := Times(From(src, s, cards[h], h), multiset(field)[h]);
      if !Reaches(src, s, cards[h], h) {
        TimesNothing(multiset(field)[h]);
      }
      if HasAnthem(src) {
        var types := AnthemTypes(src).value;
        var g := Grant(AnthemPower(src).value, AnthemToughness(src).value, AnthemKeywords(src));
        GrantOfAccessors(src);
        var next := AnthemFrom(cards, s, types, g, field);
        AnthemFromCounts(cards, s, types, g, field, h);
        assert next[h] == Receive(cards[h], here) by {
          if !(Reaches(src, s, cards[h], h)) {
            ReceiveNothing(cards[h]);
          }
        }
        forall k | 0 <= k < |cards| ensures Shown(next[k]) == Shown(cards[k]) {
          AnthemFromKeepsFaces(cards, s, types, g, field, k);
        }
        ApplyFromTotal(next, field, todo[1..], h);
        TotalFaces(next, cards, field, todo[1..], h);
        ReceiveTwice(cards[h], here, Total(cards, field, todo[1..], h));
      } else {
        ApplyFromTotal(cards, field, todo[1..], h);
        ReceiveNothing(cards[h]);
        assert Plus(here, Total(cards, field, todo[1..], h)) == Total(cards, field, todo[1..], h);
      }
    }
  }

  /** A card off the field receives nothing. */
  lemma {:induction false} ApplyFromOffField(cards: seq<Card>, field: seq<nat>, todo: seq<nat>, h: nat)
    requires Handles(cards, field) && Handles(cards, todo) && h < |cards| && h !in field
    ensures ApplyFrom(cards, field, todo)[h] == cards[h]
    decreases |todo|
  {
    if todo != [] {
      var s := todo[0];
      var src := cards[s];
      if HasAnthem(src) {
        var types := AnthemTypes(src).value;
        var g := Grant(AnthemPower(src).value, AnthemToughness(src).value, AnthemKeywords(src));
        var next := AnthemFrom(cards, s, types, g, field);
        AnthemFromCounts(cards, s, types, g, field, h);
        assert multiset(field)[h] == 0;
        assert Times(g, 0) == NoGrant;
        ReceiveNothing(cards[h]);
        ApplyFromOffField(next, field, todo[1..], h);
      } else {
        ApplyFromOffField(cards, field, todo[1..], h);
      }
    }
  }

  /** applyAnthems, stated outright: a field card has its bonuses cleared and
      then receives the total of every anthem on the field that reaches it;
      every other card is unchanged, and so is the rest of the board. */
  lemma ApplyAnthemsEffect(b: Board, h: nat)
    requires Valid(b) && h < |b.cards|
    ensures ApplyAnthems(b).(cards := b.cards) == b
    ensures ApplyAnthems(b).cards[h]
            == if h in b.field then Receive(ResetAnthem(b.cards[h]), Total(b.cards, b.field, b.field, h)) else b.cards[h]
  {
    var reset := ResetFrom(b.cards, b.field);
    forall k | 0 <= k < |b.cards| ensures Shown(reset[k]) == Shown(b.cards[k]) {
      ResetFromCards(b.cards, b.field, k);
      ResetKeepsFace(b.cards[k]);
    }
    ResetFromCards(b.cards, b.field, h);
    if h in b.field {
      ApplyFromTotal(reset, b.field, b.field, h);
      TotalFaces(reset, b.cards, b.field, b.field, h);
    } else {
      ApplyFromOffField(reset, b.field, b.field, h);
    }
  }

  /** The pass changes no card's face and nothing resetAnthem keeps. */
  lemma ApplyAnthemsKeepsFaces(b: Board)
    requires Valid(b)
    ensures SameFaces(ApplyAnthems(b).cards, b.cards)
    ensures forall k :: 0 <= k < |b.cards| ==> ResetAnthem(ApplyAnthems(b).cards[k]) == ResetAnthem(b.cards[k])
  {
    forall k | 0 <= k < |b.cards|
      ensures Shown(ApplyAnthems(b).cards[k]) == Shown(b.cards[k])
      ensures ResetAnthem(ApplyAnthems(b).cards[k]) == ResetAnthem(b.cards[k])
    {
      ApplyAnthemsEffect(b, k);
      if k in b.field {
        ResetKeepsFace(b.cards[k]);
        ReceiveKeepsFace(ResetAnthem(b.cards[k]), Total(b.cards, b.field, b.field, k));
      }
    }
  }

  /** Running the pass twice is running it once: it starts from a reset, and
      what it adds depends only on the faces the field cards show. */
  lemma ApplyAnthemsIdempotent(b: Board)
    requires Valid(b)
    ensures ApplyAnthems(ApplyAnthems(b)) == ApplyAnthems(b)
  {
    var once := ApplyAnthems(b);
    var twice := ApplyAnthems(once);
    ApplyAnthemsKeepsFaces(b);
    assert |twice.cards| == |once.cards|;
    forall k | 0 <= k < |once.cards| ensures twice.cards[k] == once.cards[k] {
      ApplyAnthemsEffect(b, k);
      ApplyAnthemsEffect(once, k);
      if k in b.field {
        TotalFaces(once.cards, b.cards, b.field, b.field, k);
      }
    }
    assert twice.cards == once.cards;
  }
}
