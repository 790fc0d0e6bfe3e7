/**
 * The commands of play.py that move cards between the zone lists: draw,
 * discard, play, move, reshuffle, mulligan, reset and nextTurn, and the
 * continuous-effect and state-based pass that follows every state-changing
 * command. The lists hold handles into the card arena; each command changes
 * the lists and calls the card's own transition, in the source's order, and
 * keeps what it had done when a step raises.
 */
module Zones {
  import opened Wrappers
  import opened Lists
  import opened Text
  import opened Cards
  import opened Lookup
  import opened Boards
  import opened Removals
  import opened Effects
  import opened Anthems

  // ---------------------------------------------------------------------------
  // draw (play.py:922-929)
  // ---------------------------------------------------------------------------

  /** `draw(n)`: n times, the first library card is popped, drawn and
      appended to the hand. An empty library ends the loop silently (the
      source's IndexError handler assigns a local, so no win is recorded);
      a card whose zone is not the library raises AttributeError after the
      pop. */
  function Draw(b: Board, n: int): (o: Outcome)
    requires Valid(b)
    ensures Valid(o.board) && |o.board.cards| == |b.cards|
    ensures TallyOf(o.board) == TallyOf(b) && o.board.deck == b.deck
    ensures o.board.field == b.field && o.board.grave == b.grave && o.board.exiled == b.exiled
    ensures o.error.None? ==> o.board.hand + o.board.library == b.hand + b.library
    ensures o.error.None? ==> |o.board.hand| == |b.hand| + DrawCount(b, n)
    decreases if n < 0 then 0 else n
  {
    if n <= 0 || b.library == [] then Done(b)
    else
      match Cards.Draw(b.cards[b.library[0]])
      case Err(e) => Failed(b.(library := b.library[1..]), e)
      case Ok(c) =>
        assert b.library == [b.library[0]] + b.library[1..];
        assert (b.hand + [b.library[0]]) + b.library[1..] == b.hand + b.library;
        assert DrawCount(Drawn(b, c), n - 1) == DrawCount(b, n) - 1;
        Draw(Drawn(b, c), n - 1)
  }

  /** One step of the draw loop: the top card, changed to c, from the
      library to the end of the hand. */
  function Drawn(b: Board, c: Card): (r: Board)
    requires Valid(b) && b.library != []
    ensures Valid(r) && |r.cards| == |b.cards|
    ensures r.library == b.library[1..] && r.hand == b.hand + [b.library[0]]
    ensures r.cards == b.cards[b.library[0] := c]
    ensures TallyOf(r) == TallyOf(b) && r.deck == b.deck
    ensures r.field == b.field && r.grave == b.grave && r.exiled == b.exiled
  {
    var h := b.library[0];
    HandlesSnoc(b.cards, b.hand, h);
    b.(library := b.library[1..], cards := b.cards[h := c], hand := b.hand + [h])
  }

  /** One pass of the draw loop: the top card popped and drawn. */
  function DrawTop(b: Board): (o: Outcome)
    requires Valid(b) && b.library != []
  {
    match Cards.Draw(b.cards[b.library[0]])
    case Err(e) => Failed(b.(library := b.library[1..]), e)
    case Ok(c) => Done(b.(library := b.library[1..], cards := b.cards[b.library[0] := c], hand := b.hand + [b.library[0]]))
  }

  /** A draw of n cards is one pass of its loop followed by a draw of n - 1. */
  lemma DrawUnfold(b: Board, n: int)
    requires Valid(b) && n > 0 && b.library != []
    ensures var s := DrawTop(b);
            Draw(b, n) == if s.error.Some? then s else Draw(s.board, n - 1)
  {
  }

  /** How many cards `draw(n)` takes: n, but no more than the library holds. */
  function DrawCount(b: Board, n: int): nat
  {
    if n <= 0 then 0 else if n < |b.library| then n else |b.library|
  }

  /** The first k cards of the library are distinct and in the library zone. */
  predicate DrawableTop(b: Board, k: nat)
    requires Valid(b) && k <= |b.library|
  {
    && (forall i :: 0 <= i < k ==> b.cards[b.library[i]].zone == Library)
    && (forall i, j :: 0 <= i < j < k ==> b.library[i] != b.library[j])
  }

  /** Taking the first card keeps the rest of the top drawable. */
  lemma DrawableTopTail(b: Board, next: Board, k: nat)
    requires Valid(b) && Valid(next) && 0 < k <= |b.library| && DrawableTop(b, k)
    requires next.library == b.library[1..] && next.cards == b.cards[b.library[0] := Cards.Draw(b.cards[b.library[0]]).value]
    ensures DrawableTop(next, k - 1)
    ensures b.library[0] !in b.library[1..k]
  {
    forall i | 0 <= i < k - 1 ensures next.cards[next.library[i]].zone == Library {
      assert next.library[i] == b.library[i + 1];
      assert b.library[0] != b.library[i + 1];
    }
    forall i, j | 0 <= i < j < k - 1 ensures next.library[i] != next.library[j] {
      assert next.library[i] == b.library[i + 1] && next.library[j] == b.library[j + 1];
    }
    forall i | 1 <= i < k ensures b.library[i] != b.library[0] {
    }
  }

  /** The draw completes when the cards it takes are distinct and in the
      library zone; a short library simply ends it. */
  lemma {:induction false} DrawSucceeds(b: Board, n: int)
    requires Valid(b) && DrawableTop(b, DrawCount(b, n))
    ensures Draw(b, n).error.None?
    decreases if n < 0 then 0 else n
  {
    var k := DrawCount(b, n);
    if k > 0 {
      var next := Drawn(b, Cards.Draw(b.cards[b.library[0]]).value);
      assert DrawCount(next, n - 1) == k - 1;
      DrawableTopTail(b, next, k);
      DrawSucceeds(next, n - 1);
    }
  }

  /** `draw(n)` moves the first cards of the library, in order, to the end of
      the hand when each of them is in the library zone. */
  lemma DrawMovesTop(b: Board, n: int)
    requires Valid(b) && DrawableTop(b, DrawCount(b, n))
    ensures var o := Draw(b, n);
            var k := DrawCount(b, n);
            && o.error.None?
            && o.board.hand == b.hand + b.library[..k]
            && o.board.library == b.library[k..]
  {
    DrawSucceeds(b, n);
    var o := Draw(b, n).board;
    var k := DrawCount(b, n);
    SplitAt(o.hand, o.library, b.hand, b.library, k);
  }

  /** Cutting a concatenation at a known length. */
  lemma SplitAt(a: seq<nat>, b: seq<nat>, c: seq<nat>, d: seq<nat>, k: nat)
    requires a + b == c + d && |a| == |c| + k && k <= |d|
    ensures a == c + d[..k] && b == d[k..]
  {
    assert a == (a + b)[..|a|];
    assert b == (a + b)[|a|..];
    assert (c + d)[..|c| + k] == c + d[..k];
  }

  /** Each card drawn is now in the hand zone, and no other card changes. */
  lemma {:induction false} DrawMovesCards(b: Board, n: int, x: nat)
    requires Valid(b) && DrawableTop(b, DrawCount(b, n)) && x < |b.cards|
    ensures Draw(b, n).board.cards[x]
            == if x in b.library[..DrawCount(b, n)] then b.cards[x].(zone := Hand) else b.cards[x]
    decreases if n < 0 then 0 else n
  {
    var k := DrawCount(b, n);
    if k > 0 {
      var h := b.library[0];
      var next := Drawn(b, Cards.Draw(b.cards[h]).value);
      assert DrawCount(next, n - 1) == k - 1;
      DrawableTopTail(b, next, k);
      DrawMovesCards(next, n - 1, x);
      assert Draw(b, n).board.cards[x] == Draw(next, n - 1).board.cards[x];
      if x == h {
        assert next.cards[x] == b.cards[x].(zone := Hand);
      } else {
        assert next.cards[x] == b.cards[x];
      }
      TopStep(b.library, k, x);
    }
  }

  /** Membership in the first k elements, one element at a time. */
  lemma TopStep(l: seq<nat>, k: nat, x: nat)
    requires 0 < k <= |l|
    ensures (x in l[..k]) == (x == l[0] || x in l[1..][..k - 1])
  {
    assert l[..k] == [l[0]] + l[1..][..k - 1];
  }

  // ---------------------------------------------------------------------------
  // discard (play.py:913-916)
  // ---------------------------------------------------------------------------

  /** `discard(card)`: the card's own discard, then `hand.remove` (ValueError
      when it is not in the hand, after the card has changed) and the front
      of the graveyard. A type name has no discard: AttributeError. */
  function Discard(b: Board, target: Target): (o: Outcome)
    requires Valid(b) && (target.OneCard? ==> target.handle < |b.cards|)
    ensures Valid(o.board) && |o.board.cards| == |b.cards|
  {
    match target
    case AllOfType(_) => Failed(b, Uncaught("AttributeError"))
    case OneCard(h) => DiscardCard(b, h)
  }

  /** `discard` of one card. */
  function DiscardCard(b: Board, h: nat): (o: Outcome)
    requires Valid(b) && h < |b.cards|
    ensures Valid(o.board) && |o.board.cards| == |b.cards|
  {
    HandToGrave(SetCard(b, h, Cards.Discard(b.cards[h])), h)
  }

  /** `hand.remove(card)`, with its ValueError, then the front of the
      graveyard. */
  function HandToGrave(b: Board, h: nat): (o: Outcome)
    requires Valid(b) && h < |b.cards|
    ensures Valid(o.board) && |o.board.cards| == |b.cards|
  {
    HandlesRemove(b.cards, b.hand, h);
    HandlesSnoc(b.cards, b.grave, h);
    if h !in b.hand then Failed(b, Uncaught("ValueError"))
    else Done(b.(hand := RemoveFirst(b.hand, h), grave := [h] + b.grave))
  }

  lemma DiscardEffect(b: Board, h: nat)
    requires Valid(b) && h < |b.cards|
    ensures var o := Discard(b, OneCard(h));
            && (o.error.None? <==> h in b.hand)
            && o.board.cards == b.cards[h := Cards.Discard(b.cards[h])]
            && (b.cards[h].zone == Hand ==> o.board.cards[h].zone == Graveyard)
            && (h in b.hand ==> multiset(o.board.hand) == multiset(b.hand) - multiset{h} && o.board.grave == [h] + b.grave)
            && (h !in b.hand ==> o.board.hand == b.hand && o.board.grave == b.grave)
  {
    RemoveFirstMultiset(b.hand, h);
  }

  // ---------------------------------------------------------------------------
  // play (play.py:1158-1200)
  // ---------------------------------------------------------------------------

  /** The source's test that a card may be played. */
  predicate Playable(b: Board, h: nat)
    requires h < |b.cards|
  {
    || h in b.hand
    || b.cards[h].commander
    || IsToken(b.cards[h])
    || (b.revealed && b.library != [] && h == b.library[0])
  }

  /** `play(card)`: a type name does nothing, and a card that is not
      playable is refused with nothing changed. Otherwise the card is counted
      if it is the commander played from the command zone, taken from the
      hand and from the top of the library, played, and put where its new
      zone says; a card played to the top or bottom of the library is then
      moved to the library. */
  function Play(b: Board, target: Target, rand: Shuffler): (o: Outcome)
    requires Valid(b) && (target.OneCard? ==> target.handle < |b.cards|)
    requires IsShuffler(rand)
    ensures Valid(o.board) && |o.board.cards| == |b.cards|
    ensures target.AllOfType? ==> o == Done(b)
    ensures target.OneCard? && !Playable(b, target.handle) ==>
              o == Failed(b, ZoneError(Name(b.cards[target.handle]) + " needs to be in your hand to play it."))
    ensures target.OneCard? && Playable(b, target.handle) ==>
              o.board.commandPlayCount
              == b.commandPlayCount + (if IsCommander(b, target.handle) && b.cards[target.handle].zone == Command then 1 else 0)
  {
    match target
    case AllOfType(_) => Done(b)
    case OneCard(h) =>
      if !Playable(b, h) then Failed(b, ZoneError(Name(b.cards[h]) + " needs to be in your hand to play it."))
      else PlaceAfterPlay(Taken(b, h, Cards.Play(b.cards[h])), h, rand)
  }

  /** The first half of play: the count, the card out of the hand and off
      the top of the library, and the card's own play. */
  function Taken(b: Board, h: nat, played: Card): (r: Board)
    requires Valid(b) && h < |b.cards|
    ensures Valid(r) && |r.cards| == |b.cards|
    ensures r.cards == b.cards[h := played]
    ensures r.hand == if h in b.hand then RemoveFirst(b.hand, h) else b.hand
    ensures r.library == if b.library != [] && h == b.library[0] then b.library[1..] else b.library
    ensures r.commandPlayCount == b.commandPlayCount + (if IsCommander(b, h) && b.cards[h].zone == Command then 1 else 0)
    ensures r.field == b.field && r.grave == b.grave && r.exiled == b.exiled && r.deck == b.deck
    ensures r.commander == b.commander && r.turn == b.turn
  {
    SetCard(Unlisted(Counted(b, h), h), h, played)
  }

  /** The commander played from the command zone is counted. */
  function Counted(b: Board, h: nat): (r: Board)
    requires Valid(b) && h < |b.cards|
    ensures Valid(r) && r.cards == b.cards
    ensures r.hand == b.hand && r.library == b.library && r.field == b.field
    ensures r.grave == b.grave && r.exiled == b.exiled && r.deck == b.deck
    ensures r.commandPlayCount == b.commandPlayCount + (if IsCommander(b, h) && b.cards[h].zone == Command then 1 else 0)
    ensures r.commander == b.commander && r.turn == b.turn
  {
    if IsCommander(b, h) && b.cards[h].zone == Command then b.(commandPlayCount := b.commandPlayCount + 1) else b
  }

  /** The card leaves the hand (its first occurrence) and the top of the
      library. */
  function Unlisted(b: Board, h: nat): (r: Board)
    requires Valid(b)
    ensures Valid(r) && r.cards == b.cards
    ensures r.hand == if h in b.hand then RemoveFirst(b.hand, h) else b.hand
    ensures r.library == if b.library != [] && h == b.library[0] then b.library[1..] else b.library
    ensures r.field == b.field && r.grave == b.grave && r.exiled == b.exiled && r.deck == b.deck
    ensures TallyOf(r) == TallyOf(b)
  {
    HandlesRemove(b.cards, b.hand, h);
    HandlesDrop(b.cards, b.library);
    var hand: seq<nat> := if h in b.hand then RemoveFirst(b.hand, h) else b.hand;
    var library: seq<nat> := if b.library != [] && h == b.library[0] then b.library[1..] else b.library;
    assert Handles(b.cards, hand);
    assert Handles(b.cards, library);
    b.(hand := hand, library := library)
  }

  /** The routing on the zone the card's play left it in. */
  function PlaceAfterPlay(p: Board, h: nat, rand: Shuffler): (o: Outcome)
    requires Valid(p) && h < |p.cards|
    requires IsShuffler(rand)
    ensures Valid(o.board) && |o.board.cards| == |p.cards|
    ensures o.board.hand == p.hand && o.board.commandPlayCount == p.commandPlayCount
  {
    var z := p.cards[h].zone;
    if z == Bottom || z == Top then Returned(p, h) else Done(Placed(p, h, rand))
  }

  /** A card played to the graveyard or exile joins the front of that list,
      one played to the field its end, one played to the library its end
      before a shuffle; any other card joins no list. */
  function Placed(p: Board, h: nat, rand: Shuffler): (r: Board)
    requires Valid(p) && h < |p.cards|
    requires IsShuffler(rand)
    ensures Valid(r) && r.cards == p.cards
    ensures r.hand == p.hand && r.commandPlayCount == p.commandPlayCount
  {
    HandlesSnoc(p.cards, p.grave, h);
    HandlesSnoc(p.cards, p.exiled, h);
    HandlesSnoc(p.cards, p.field, h);
    HandlesSnoc(p.cards, p.library, h);
    var z := p.cards[h].zone;
    if z == Graveyard then p.(grave := [h] + p.grave)
    else if z == Exile then p.(exiled := [h] + p.exiled)
    else if z == Battlefield then p.(field := p.field + [h])
    else if z == Library then Shuffle(p.(library := p.library + [h]), rand)
    else p
  }

  /** A card played to the top or the bottom of the library is put there and
      then moved to the library. */
  function Returned(p: Board, h: nat): (o: Outcome)
    requires Valid(p) && h < |p.cards|
    ensures Valid(o.board) && |o.board.cards| == |p.cards|
    ensures o.board.hand == p.hand && o.board.commandPlayCount == p.commandPlayCount
  {
    HandlesSnoc(p.cards, p.library, h);
    var placed := if p.cards[h].zone == Bottom then p.(library := p.library + [h]) else p.(library := [h] + p.library);
    match Move(p.cards[h], Library)
    case Err(e) => Failed(placed, e)
    case Ok(m) => Done(SetCard(placed, h, m))
  }

  /** What play does with a card from the hand: a spell goes to the front of
      the graveyard or exile, a permanent to the end of the field, after the
      card's own play; it leaves the hand, and the other lists are kept. */
  lemma PlayFromHand(b: Board, h: nat, rand: Shuffler)
    requires Valid(b) && h < |b.cards| && h in b.hand && b.cards[h].zone == Hand
    requires IsShuffler(rand)
    requires b.library == [] || b.library[0] != h
    ensures var o := Play(b, OneCard(h), rand);
            && o.error.None?
            && o.board.cards == b.cards[h := Cards.Play(b.cards[h])]
            && o.board.hand == RemoveFirst(b.hand, h)
            && o.board.library == b.library
            && (IsSpell(b.cards[h]) ==>
                  if Contains(b.cards[h].face.text, "Exile " + b.cards[h].face.name)
                  then o.board.exiled == [h] + b.exiled && o.board.grave == b.grave && o.board.field == b.field
                  else o.board.grave == [h] + b.grave && o.board.exiled == b.exiled && o.board.field == b.field)
            && (!IsSpell(b.cards[h]) && IsPermanent(b.cards[h]) ==>
                  o.board.field == b.field + [h] && o.board.grave == b.grave && o.board.exiled == b.exiled)
            && (!IsSpell(b.cards[h]) && !IsPermanent(b.cards[h]) ==>
                  o.board.field == b.field && o.board.grave == b.grave && o.board.exiled == b.exiled)
  {
    var c := b.cards[h];
    PlayRouting(c);
    var p := Taken(b, h, Cards.Play(c));
    assert Play(b, OneCard(h), rand) == PlaceAfterPlay(p, h, rand);
    PlacedPlainly(p, h, rand);
  }

  /** The routing for a card that is now in the graveyard, exile, the field
      or still in the hand: one list gains it, nothing else changes. */
  lemma PlacedPlainly(p: Board, h: nat, rand: Shuffler)
    requires Valid(p) && h < |p.cards| && IsShuffler(rand)
    requires p.cards[h].zone in {Graveyard, Exile, Battlefield, Hand}
    ensures var o := PlaceAfterPlay(p, h, rand);
            && o.error.None? && o.board.cards == p.cards && o.board.library == p.library
            && o.board.grave == (if p.cards[h].zone == Graveyard then [h] + p.grave else p.grave)
            && o.board.exiled == (if p.cards[h].zone == Exile then [h] + p.exiled else p.exiled)
            && o.board.field == (if p.cards[h].zone == Battlefield then p.field + [h] else p.field)
  {
  }

  // ---------------------------------------------------------------------------
  // move (play.py:1047-1125)
  // ---------------------------------------------------------------------------

  /** The source list a zone names: the library for Top and Bottom, none for
      the command zone. */
  function SourceList(b: Board, z: Zone): Option<seq<nat>>
  {
    match z
    case Hand => Some(b.hand)
    case Battlefield => Some(b.field)
    case Exile => Some(b.exiled)
    case Graveyard => Some(b.grave)
    case Library => Some(b.library)
    case Top => Some(b.library)
    case Bottom => Some(b.library)
    case Command => None
  }

  /** The list a zone names, with one handle taken out. */
  function TakeFrom(b: Board, z: Zone, h: nat): (r: Board)
    requires Valid(b)
    ensures Valid(r) && r.cards == b.cards && r.field == (if z == Battlefield then RemoveFirst(b.field, h) else b.field)
  {
    HandlesRemove(b.cards, b.hand, h);
    HandlesRemove(b.cards, b.field, h);
    HandlesRemove(b.cards, b.exiled, h);
    HandlesRemove(b.cards, b.grave, h);
    HandlesRemove(b.cards, b.library, h);
    match z
    case Hand => b.(hand := RemoveFirst(b.hand, h))
    case Battlefield => b.(field := RemoveFirst(b.field, h))
    case Exile => b.(exiled := RemoveFirst(b.exiled, h))
    case Graveyard => b.(grave := RemoveFirst(b.grave, h))
    case Command => b
    case _ => b.(library := RemoveFirst(b.library, h))
  }

  /** Where a moved non-token is inserted: library, hand, field and exile at
      the end (the library then shuffled), the top at the front, the
      graveyard at the front, the command zone nowhere. */
  function PutInto(b: Board, z: Zone, h: nat, rand: Shuffler): (r: Board)
    requires Valid(b) && h < |b.cards|
    requires IsShuffler(rand)
    ensures Valid(r) && r.cards == b.cards
  {
    HandlesSnoc(b.cards, b.library, h);
    HandlesSnoc(b.cards, b.hand, h);
    HandlesSnoc(b.cards, b.field, h);
    HandlesSnoc(b.cards, b.exiled, h);
    HandlesSnoc(b.cards, b.grave, h);
    match z
    case Library => Shuffle(b.(library := b.library + [h]), rand)
    case Top => b.(library := [h] + b.library)
    case Bottom => b.(library := b.library + [h])
    case Battlefield => b.(field := b.field + [h])
    case Hand => b.(hand := b.hand + [h])
    case Exile => b.(exiled := b.exiled + [h])
    case Graveyard => b.(grave := [h] + b.grave)
    case Command => b
  }

  /** The zone a moved card is told to go to: the top and the bottom are the
      library, except for a token, whose target is not rewritten. */
  function Told(z: Zone, token: bool): Zone
  {
    if !token && (z == Top || z == Bottom) then Library else z
  }

  /** `move(from, to, cardArgs)` once the zone names are resolved. */
  function MoveBetween(b: Board, from: Zone, to: Zone, cardArgs: Option<seq<string>>, rand: Shuffler): (o: Outcome)
    requires Valid(b)
    requires IsShuffler(rand)
    ensures Valid(o.board) && |o.board.cards| == |b.cards|
  {
    if (from == Top || from == Bottom) && cardArgs.Some? then
      Failed(b, ZoneError("Can't move a specific card from top or bottom."))
    else if (from == Top || from == Bottom) && b.library == [] then
      Failed(b, Uncaught("IndexError"))
    else
      match Picked(b, from, cardArgs)
      case Err(e) => Failed(b, e)
      case Ok(None) => Failed(b, CardNotFound("Card"))
      case Ok(Some(AllOfType(_))) =>
        if Searched(b, from) != [] then Failed(b, Uncaught("ValueError")) else Failed(b, Uncaught("AttributeError"))
      case Ok(Some(OneCard(h))) =>
        assert h < |b.cards| by { PickedHandle(b, from, cardArgs, h); }
        MoveCard(b, from, to, h, rand)
  }

  /** The list `move` searches for a named card: none for the command zone. */
  function Searched(b: Board, from: Zone): (r: seq<nat>)
    requires Valid(b)
    ensures Handles(b.cards, r)
  {
    var list := SourceList(b, from);
    if list.Some? then list.value else []
  }

  /** The card `move` picks: by name in the list it searches, else the top or
      the bottom of the library. */
  function Picked(b: Board, from: Zone, cardArgs: Option<seq<string>>): Result<Option<Target>>
    requires Valid(b) && ((from == Top || from == Bottom) ==> b.library != [])
  {
    if cardArgs.Some? && cardArgs.value != [] then
      match FindCard(b.cards, cardArgs.value, Searched(b, from), b.library, false)
      case Err(e) => Err(e)
      case Ok(t) => Ok(Some(t))
    else if from == Top then Ok(Some(OneCard(b.library[0])))
    else if from == Bottom then Ok(Some(OneCard(b.library[|b.library| - 1])))
    else Ok(None)
  }

  /** A found handle names a card. */
  lemma PickedHandle(b: Board, from: Zone, cardArgs: Option<seq<string>>, h: nat)
    requires Valid(b) && ((from == Top || from == Bottom) ==> b.library != [])
    requires Picked(b, from, cardArgs) == Ok(Some(OneCard(h)))
    ensures h < |b.cards|
  {
    if cardArgs.Some? && cardArgs.value != [] {
      FindCardSound(b.cards, cardArgs.value, Searched(b, from), b.library, false);
    }
  }

  /** The second half of move, for a card: out of the source list (and a
      shuffle if that is the library), into the target list unless it is a
      token, the command-zone check, and the card's own move. */
  function MoveCard(b: Board, from: Zone, to: Zone, h: nat, rand: Shuffler): (o: Outcome)
    requires Valid(b) && h < |b.cards|
    requires IsShuffler(rand)
    ensures Valid(o.board) && |o.board.cards| == |b.cards|
  {
    Retagged(Relocated(b, from, to, h, rand), b.cards[h], to, h)
  }

  /** The end of move, once the lists have changed: the command-zone check,
      then the card's own move. */
  function Retagged(p: Board, c: Card, to: Zone, h: nat): (o: Outcome)
    requires Valid(p) && h < |p.cards|
    ensures Valid(o.board) && |o.board.cards| == |p.cards|
  {
    var target := Told(to, IsToken(c));
    if target == Command && !c.commander then Failed(p, ZoneError(Name(c) + " can't be put in the command zone."))
    else
      match Move(c, target)
      case Err(e) => Failed(p, e)
      case Ok(m) => Done(SetCard(p, h, m))
  }

  /** The lists after move: the card out of its source (the library then
      shuffled), and into its target unless it is a token. */
  function Relocated(b: Board, from: Zone, to: Zone, h: nat, rand: Shuffler): (r: Board)
    requires Valid(b) && h < |b.cards|
    requires IsShuffler(rand)
    ensures Valid(r) && r.cards == b.cards
  {
    var taken := TakeFrom(b, from, h);
    var shuffled := if from == Library then Shuffle(taken, rand) else taken;
    if IsToken(b.cards[h]) then shuffled else PutInto(shuffled, to, h, rand)
  }

  /** `move(from, to, cardArgs)`: both zone names must resolve. */
  function MoveCmd(b: Board, from: string, to: string, cardArgs: Option<seq<string>>, rand: Shuffler): (o: Outcome)
    requires Valid(b)
    requires IsShuffler(rand)
    ensures Valid(o.board) && |o.board.cards| == |b.cards|
  {
    match (ZoneFromString(from), ZoneFromString(to))
    case (Some(f), Some(t)) => MoveBetween(b, f, t, cardArgs, rand)
    case _ => Failed(b, ZoneError("Zone does not exist, or zone name is not specific enough."))
  }

  /** Moving a card that is not the commander from the hand to the command
      zone is refused only after it has left the hand: it ends in no list,
      its zone still the hand. */
  lemma MoveToCommandNotAtomic(b: Board, h: nat, rand: Shuffler)
    requires Valid(b) && h < |b.cards| && h in b.hand && Distinct(b.hand) && !b.cards[h].commander
    requires IsShuffler(rand)
    ensures var o := MoveCard(b, Hand, Command, h, rand);
            && o.error == Some(ZoneError(Name(b.cards[h]) + " can't be put in the command zone."))
            && o.board.cards == b.cards
            && h !in o.board.hand
            && o.board.library == b.library && o.board.field == b.field && o.board.grave == b.grave && o.board.exiled == b.exiled
  {
    RemoveFirstDistinct(b.hand, h);
  }

  lemma {:induction false} RemoveFirstDistinct(s: seq<nat>, x: nat)
    requires Distinct(s)
    ensures x !in RemoveFirst(s, x)
  {
    DistinctOnce(s, x);
    RemoveFirstMultiset(s, x);
    assert multiset(RemoveFirst(s, x)) == multiset(s) - multiset{x};
    assert (multiset(s) - multiset{x})[x] == 0;
  }

  /** Whatever happens to the card, the lists end as Relocated says. */
  lemma MoveCardLists(b: Board, from: Zone, to: Zone, h: nat, rand: Shuffler)
    requires Valid(b) && h < |b.cards|
    requires IsShuffler(rand)
    ensures var o := MoveCard(b, from, to, h, rand).board;
            var r := Relocated(b, from, to, h, rand);
            o.hand == r.hand && o.field == r.field && o.grave == r.grave && o.exiled == r.exiled && o.library == r.library
  {
    var c := b.cards[h];
    var r := Relocated(b, from, to, h, rand);
    var target := Told(to, IsToken(c));
    if !(target == Command && !c.commander) && Move(c, target).Ok? {
      assert MoveCard(b, from, to, h, rand).board == SetCard(r, h, Move(c, target).value);
    }
  }

  /** A token is only taken out of its list: it joins none. Taken from the
      library, it leaves the rest of the library shuffled. */
  lemma MoveTokenVanishes(b: Board, from: Zone, to: Zone, h: nat, rand: Shuffler)
    requires Valid(b) && h < |b.cards| && IsToken(b.cards[h])
    requires IsShuffler(rand)
    ensures var r := Relocated(b, from, to, h, rand);
            var t := TakeFrom(b, from, h);
            && r.hand == t.hand && r.field == t.field && r.grave == t.grave && r.exiled == t.exiled
            && (from != Library ==> r.library == t.library)
            && multiset(r.library) == multiset(t.library)
  {
  }

  /** The card's fate: refused for the command zone unless it is the
      commander, else the card's own move, whose target is the library for
      the top and the bottom unless the card is a token. */
  lemma MoveCardOutcome(b: Board, from: Zone, to: Zone, h: nat, rand: Shuffler)
    requires Valid(b) && h < |b.cards|
    requires IsShuffler(rand)
    ensures var o := MoveCard(b, from, to, h, rand);
            var c := b.cards[h];
            var target := Told(to, IsToken(c));
            && (o.error.None? <==> Move(c, target).Ok? && (target != Command || c.commander))
            && (o.error.None? ==> o.board.cards == b.cards[h := Move(c, target).value]
                                  && o.board.cards[h].zone == Destination(c, target))
            && (o.error.Some? ==> o.board.cards == b.cards)
  {
    MoveRules(b.cards[h], Told(to, IsToken(b.cards[h])));
  }

  /** A card that is not a token joins the end of the hand, field or exile
      it is moved to, or the front of the graveyard, after leaving its
      source. Moved to the library, the top or the bottom, it joins the
      library, in place unless the library was its source and has been
      shuffled. */
  lemma MoveCardPlaces(b: Board, from: Zone, to: Zone, h: nat, rand: Shuffler)
    requires Valid(b) && h < |b.cards| && !IsToken(b.cards[h])
    requires IsShuffler(rand)
    ensures var r := Relocated(b, from, to, h, rand);
            var t := TakeFrom(b, from, h);
            && (to == Hand ==> r.hand == t.hand + [h])
            && (to != Hand ==> r.hand == t.hand)
            && (to == Battlefield ==> r.field == t.field + [h])
            && (to != Battlefield ==> r.field == t.field)
            && (to == Exile ==> r.exiled == t.exiled + [h])
            && (to != Exile ==> r.exiled == t.exiled)
            && (to == Graveyard ==> r.grave == [h] + t.grave)
            && (to != Graveyard ==> r.grave == t.grave)
            && (to == Top && from != Library ==> r.library == [h] + t.library)
            && (to == Bottom && from != Library ==> r.library == t.library + [h])
            && multiset(r.library) == multiset(t.library) + (if to in {Library, Top, Bottom} then multiset{h} else multiset{})
  {
    var t := TakeFrom(b, from, h);
    var shuffled := if from == Library then Shuffle(t, rand) else t;
    assert Relocated(b, from, to, h, rand) == PutInto(shuffled, to, h, rand);
    PutIntoPlaces(shuffled, to, h, rand);
  }

  /** Where PutInto puts a card, list by list. */
  lemma PutIntoPlaces(s: Board, to: Zone, h: nat, rand: Shuffler)
    requires Valid(s) && h < |s.cards|
    requires IsShuffler(rand)
    ensures var r := PutInto(s, to, h, rand);
            && r.hand == (if to == Hand then s.hand + [h] else s.hand)
            && r.field == (if to == Battlefield then s.field + [h] else s.field)
            && r.exiled == (if to == Exile then s.exiled + [h] else s.exiled)
            && r.grave == (if to == Graveyard then [h] + s.grave else s.grave)
            && (to == Top ==> r.library == [h] + s.library)
            && (to == Bottom ==> r.library == s.library + [h])
            && multiset(r.library) == multiset(s.library) + (if to in {Library, Top, Bottom} then multiset{h} else multiset{})
  {
    if to == Library {
      HandlesSnoc(s.cards, s.library, h);
      var a := s.(library := s.library + [h]);
      var r := Shuffle(a, rand);
      assert PutInto(s, to, h, rand) == r;
      assert r.(library := a.library, shuffles := a.shuffles) == a;
      assert r.hand == a.hand && r.field == a.field && r.exiled == a.exiled && r.grave == a.grave;
    }
  }

  /** Taking a card out of a list removes its first occurrence and changes
      no other list. */
  lemma TakeFromRemoves(b: Board, from: Zone, h: nat)
    requires Valid(b)
    ensures var t := TakeFrom(b, from, h);
            && (from == Hand ==> multiset(t.hand) == multiset(b.hand) - multiset{h})
            && (from != Hand ==> t.hand == b.hand)
            && (from == Battlefield ==> multiset(t.field) == multiset(b.field) - multiset{h})
            && (from != Battlefield ==> t.field == b.field)
            && (from == Exile ==> multiset(t.exiled) == multiset(b.exiled) - multiset{h})
            && (from != Exile ==> t.exiled == b.exiled)
            && (from == Graveyard ==> multiset(t.grave) == multiset(b.grave) - multiset{h})
            && (from != Graveyard ==> t.grave == b.grave)
            && (from in {Library, Top, Bottom} ==> multiset(t.library) == multiset(b.library) - multiset{h})
            && (from !in {Library, Top, Bottom} ==> t.library == b.library)
            && (from == Command ==> t == b)
  {
    RemoveFirstMultiset(b.hand, h);
    RemoveFirstMultiset(b.field, h);
    RemoveFirstMultiset(b.exiled, h);
    RemoveFirstMultiset(b.grave, h);
    RemoveFirstMultiset(b.library, h);
  }

  // ---------------------------------------------------------------------------
  // reshuffle (play.py:753-764), mulligan (play.py:1131-1139), reset (play.py:711-748)
  // ---------------------------------------------------------------------------

  /** The loop of reshuffle: every deck card that is not the commander is
      moved to the library zone and appended to the library; an emblem's
      refusal stops the loop with the cards before it gathered. */
  function GatherFrom(b: Board, todo: seq<nat>): (o: Outcome)
    requires Valid(b) && Handles(b.cards, todo)
    ensures Valid(o.board) && |o.board.cards| == |b.cards|
    ensures TallyOf(o.board) == TallyOf(b) && o.board.deck == b.deck
    ensures o.board.hand == b.hand && o.board.field == b.field && o.board.grave == b.grave && o.board.exiled == b.exiled
    decreases |todo|
  {
    if todo == [] then Done(b)
    else
      var h := todo[0];
      var c := b.cards[h];
      if c.commander then GatherFrom(b, todo[1..])
      else
        match Move(c, Library)
        case Err(e) => Failed(b, e)
        case Ok(m) =>
          HandlesSnoc(b.cards, b.library, h);
          GatherFrom(SetCard(b, h, m).(library := b.library + [h]), todo[1..])
  }

  /** One pass of the gathering loop. */
  function GatherOne(b: Board, h: nat): (o: Outcome)
    requires Valid(b) && h < |b.cards|
  {
    var c := b.cards[h];
    if c.commander then Done(b)
    else
      match Move(c, Library)
      case Err(e) => Failed(b, e)
      case Ok(m) => Done(SetCard(b, h, m).(library := b.library + [h]))
  }

  /** The gathering loop is its first pass followed by the rest. */
  lemma GatherUnfold(b: Board, todo: seq<nat>)
    requires Valid(b) && Handles(b.cards, todo) && todo != []
    ensures var s := GatherOne(b, todo[0]);
            Valid(s.board) && Handles(s.board.cards, todo[1..])
            && GatherFrom(b, todo) == if s.error.Some? then s else GatherFrom(s.board, todo[1..])
  {
    HandlesSnoc(b.cards, b.library, todo[0]);
    HandlesDrop(b.cards, todo);
  }

  /** The five lists reshuffle empties. */
  function Cleared(b: Board): (r: Board)
    requires Valid(b)
    ensures Valid(r)
  {
    b.(library := [], hand := [], grave := [], exiled := [], field := [])
  }

  /** `reshuffle()`: all five lists emptied, the deck gathered, the library
      shuffled; nothing else but the arena changes. */
  function Reshuffle(b: Board, rand: Shuffler): (o: Outcome)
    requires Valid(b)
    requires IsShuffler(rand)
    ensures Valid(o.board) && |o.board.cards| == |b.cards|
    ensures o.board.hand == [] && o.board.field == [] && o.board.grave == [] && o.board.exiled == []
    ensures TallyOf(o.board) == TallyOf(b) && o.board.deck == b.deck
  {
    var g := GatherFrom(Cleared(b), b.deck);
    if g.error.Some? then g else Done(Shuffle(g.board, rand))
  }

  /** The deck cards that are not the commander, in deck order. */
  function NonCommanders(cards: seq<Card>, todo: seq<nat>): seq<nat>
    requires Handles(cards, todo)
    decreases |todo|
  {
    if todo == [] then []
    else (if cards[todo[0]].commander then [] else [todo[0]]) + NonCommanders(cards, todo[1..])
  }

  /** A deck card's move to the library fails only for an emblem. */
  predicate Gatherable(cards: seq<Card>, todo: seq<nat>)
    requires Handles(cards, todo)
  {
    forall i :: 0 <= i < |todo| ==> cards[todo[i]].commander || !IsEmblem(cards[todo[i]])
  }

  /** Moving a card changes neither its commander flag nor its own face, so
      whether it can be gathered again does not change. */
  lemma MoveKeepsKind(c: Card, z: Zone)
    requires Move(c, z).Ok?
    ensures Move(c, z).value.commander == c.commander && Move(c, z).value.face == c.face
  {
    MoveRules(c, z);
    if c.zone == Battlefield && z != Battlefield {
      LeaveResets(c.(zone := Destination(c, z)));
    }
  }

  /** The gathering loop fails exactly when a deck card other than the
      commander is an emblem. */
  lemma {:induction false} GatherFromSucceeds(b: Board, todo: seq<nat>)
    requires Valid(b) && Handles(b.cards, todo)
    ensures GatherFrom(b, todo).error.None? <==> Gatherable(b.cards, todo)
    decreases |todo|
  {
    if todo != [] {
      var h := todo[0];
      var c := b.cards[h];
      GatherableTail(b.cards, todo);
      if c.commander {
        GatherFromSucceeds(b, todo[1..]);
      } else {
        MoveRules(c, Library);
        if Move(c, Library).Ok? {
          var m := Move(c, Library).value;
          MoveKeepsKind(c, Library);
          HandlesSnoc(b.cards, b.library, h);
          GatherFromSucceeds(SetCard(b, h, m).(library := b.library + [h]), todo[1..]);
          GatherableAfterSet(b.cards, todo[1..], h, m);
        }
      }
    }
  }

  /** A gathering that completes appends the non-commanders, in deck order. */
  lemma {:induction false} GatherFromAppends(b: Board, todo: seq<nat>)
    requires Valid(b) && Handles(b.cards, todo)
    ensures var o := GatherFrom(b, todo);
            o.error.None? ==> o.board.library == b.library + NonCommanders(b.cards, todo)
    decreases |todo|
  {
    if todo != [] {
      var h := todo[0];
      var c := b.cards[h];
      if c.commander {
        GatherFromAppends(b, todo[1..]);
        assert GatherFrom(b, todo) == GatherFrom(b, todo[1..]);
        assert NonCommanders(b.cards, todo) == [] + NonCommanders(b.cards, todo[1..]);
      } else if Move(c, Library).Ok? {
        var m := Move(c, Library).value;
        MoveKeepsKind(c, Library);
        HandlesSnoc(b.cards, b.library, h);
        var next := SetCard(b, h, m).(library := b.library + [h]);
        GatherFromAppends(next, todo[1..]);
        NonCommandersAfterSet(b.cards, todo[1..], h, m);
        assert GatherFrom(b, todo) == GatherFrom(next, todo[1..]);
        assert NonCommanders(b.cards, todo) == [h] + NonCommanders(b.cards, todo[1..]);
        SnocAssoc(b.library, h, NonCommanders(b.cards, todo[1..]));
      }
    }
  }

  lemma GatherableTail(cards: seq<Card>, todo: seq<nat>)
    requires Handles(cards, todo) && todo != []
    ensures Gatherable(cards, todo) <==>
              (cards[todo[0]].commander || !IsEmblem(cards[todo[0]])) && Gatherable(cards, todo[1..])
  {
    if (cards[todo[0]].commander || !IsEmblem(cards[todo[0]])) && Gatherable(cards, todo[1..]) {
      forall i | 0 <= i < |todo| ensures cards[todo[i]].commander || !IsEmblem(cards[todo[i]]) {
        if i > 0 {
          assert todo[i] == todo[1..][i - 1];
        }
      }
    }
    if Gatherable(cards, todo) {
      forall i | 0 <= i < |todo[1..]| ensures cards[todo[1..][i]].commander || !IsEmblem(cards[todo[1..][i]]) {
        assert todo[1..][i] == todo[i + 1];
      }
    }
  }

  lemma GatherableAfterSet(cards: seq<Card>, todo: seq<nat>, h: nat, m: Card)
    requires Handles(cards, todo) && h < |cards| && m.commander == cards[h].commander && m.face == cards[h].face
    ensures Gatherable(cards[h := m], todo) <==> Gatherable(cards, todo)
  {
    assert forall i :: 0 <= i < |todo| ==>
      (cards[h := m][todo[i]].commander || !IsEmblem(cards[h := m][todo[i]])) == (cards[todo[i]].commander || !IsEmblem(cards[todo[i]]));
  }

  lemma {:induction false} NonCommandersAfterSet(cards: seq<Card>, todo: seq<nat>, h: nat, m: Card)
    requires Handles(cards, todo) && h < |cards| && m.commander == cards[h].commander
    ensures NonCommanders(cards[h := m], todo) == NonCommanders(cards, todo)
    decreases |todo|
  {
    if todo != [] {
      NonCommandersAfterSet(cards, todo[1..], h, m);
    }
  }

  /** A reshuffle that succeeds leaves in the library exactly the deck's
      non-commander cards, reordered. */
  lemma ReshufflePermutes(b: Board, rand: Shuffler)
    requires Valid(b) && IsShuffler(rand)
    ensures var o := Reshuffle(b, rand);
            o.error.None? ==> multiset(o.board.library) == multiset(NonCommanders(b.cards, b.deck))
  {
    GatherFromAppends(Cleared(b), b.deck);
  }

  /** reshuffle fails exactly when a deck card other than the commander is
      an emblem. */
  lemma ReshuffleSucceeds(b: Board, rand: Shuffler)
    requires Valid(b) && IsShuffler(rand)
    ensures Reshuffle(b, rand).error.None? <==> Gatherable(b.cards, b.deck)
  {
    GatherFromSucceeds(Cleared(b), b.deck);
  }

  /** `mulligan()`: only on turn 1; reshuffle, count the mulligan, and draw
      one fewer card per mulligan (the first one free with a commander). */
  function Mulligan(b: Board, rand: Shuffler): (o: Outcome)
    requires Valid(b)
    requires IsShuffler(rand)
    ensures Valid(o.board) && |o.board.cards| == |b.cards|
  {
    if b.turn != 1 then Done(b)
    else
      var r := Reshuffle(b, rand);
      if r.error.Some? then r else Redraw(r.board)
  }

  /** The end of a mulligan: one more mulligan counted, and the new hand
      drawn. */
  function Redraw(b: Board): (o: Outcome)
    requires Valid(b)
    ensures Valid(o.board) && |o.board.cards| == |b.cards|
  {
    var counted := b.(mulls := b.mulls + 1);
    Draw(counted, MulliganHand(counted))
  }

  /** The size of the hand drawn after the latest mulligan. */
  function MulliganHand(b: Board): int
  {
    if b.commander.Some? then 7 - (b.mulls - 1) else 7 - b.mulls
  }

  /** A mulligan is refused after turn 1. */
  lemma MulliganRefused(b: Board, rand: Shuffler)
    requires Valid(b) && IsShuffler(rand) && b.turn != 1
    ensures Mulligan(b, rand) == Done(b)
  {
  }

  /** On turn 1 a mulligan counts one more mulligan, keeps every other
      counter and flag, empties the field, graveyard and exile, and leaves
      only the newly drawn cards in the hand. */
  lemma MulliganRedeals(b: Board, rand: Shuffler)
    requires Valid(b) && IsShuffler(rand) && b.turn == 1 && Gatherable(b.cards, b.deck)
    ensures var o := Mulligan(b, rand).board;
            && TallyOf(o) == TallyOf(b).(mulls := b.mulls + 1)
            && o.field == [] && o.grave == [] && o.exiled == []
            && (Mulligan(b, rand).error.None? ==>
                  |o.hand| == DrawCount(Reshuffle(b, rand).board, MulliganHand(b.(mulls := b.mulls + 1))))
  {
    ReshuffleSucceeds(b, rand);
    var r := Reshuffle(b, rand).board;
    var counted := r.(mulls := r.mulls + 1);
    assert TallyOf(r) == TallyOf(b);
    assert MulliganHand(counted) == MulliganHand(b.(mulls := b.mulls + 1));
    var d := Draw(counted, MulliganHand(counted));
    assert TallyOf(d.board) == TallyOf(counted);
  }

  /** The commander half of `reset()`: the starting life totals, and the
      commander sent to the command zone. */
  function SendCommander(b: Board): (o: Outcome)
    requires Valid(b)
    ensures Valid(o.board) && |o.board.cards| == |b.cards|
    ensures o.board.deck == b.deck && o.board.commander == b.commander
    ensures o.board.p1Life == o.board.p2Life == if b.commander.Some? then 40 else 20
  {
    match b.commander
    case None => Done(b.(p1Life := 20, p2Life := 20))
    case Some(h) =>
      var lives := b.(p1Life := 40, p2Life := 40);
      match Move(b.cards[h], Command)
      case Err(e) => Failed(lives, e)
      case Ok(m) => Done(SetCard(lives, h, m))
  }

  /** The counters, flags and counts `reset()` clears. */
  function Restart(b: Board): (r: Board)
    requires Valid(b)
    ensures Valid(r)
  {
    b.(p1Poison := 0, p2Poison := 0, p1Commander := 0, p2Commander := 0,
       p1Win := false, p2Win := false, turn := 0, mulls := 0,
       commandPlayCount := 0, gameOver := false)
  }

  /** `reset()`: a commander game starts both players at 40 life and sends the
      commander to the command zone, otherwise at 20; every counter, flag and
      count is cleared, the deck is reshuffled, seven cards are drawn, and the
      turn becomes 1. */
  function Reset(b: Board, rand: Shuffler): (o: Outcome)
    requires Valid(b)
    requires IsShuffler(rand)
    ensures Valid(o.board) && |o.board.cards| == |b.cards|
  {
    var sent := SendCommander(b);
    if sent.error.Some? then sent else Redeal(Restart(sent.board), rand)
  }

  /** The end of `reset()`: reshuffle, draw seven, and count the turn. */
  function Redeal(b: Board, rand: Shuffler): (o: Outcome)
    requires Valid(b)
    requires IsShuffler(rand)
    ensures Valid(o.board) && |o.board.cards| == |b.cards|
  {
    var r := Reshuffle(b, rand);
    if r.error.Some? then r
    else
      var d := Draw(r.board, 7);
      if d.error.Some? then d else Done(d.board.(turn := d.board.turn + 1))
  }

  /** A reset that completes starts turn 1 with the opening life totals and
      no poison, commander damage, winner, mulligan or commander play, the
      field, graveyard and exile empty. */
  lemma ResetStarts(b: Board, rand: Shuffler)
    requires Valid(b)
    requires IsShuffler(rand)
    ensures var o := Reset(b, rand);
            o.error.None? ==>
              && o.board.turn == 1 && o.board.mulls == 0 && o.board.commandPlayCount == 0
              && !o.board.p1Win && !o.board.p2Win && !o.board.gameOver
              && Stats(o.board, true) == (if b.commander.Some? then 40 else 20, 0, 0)
              && Stats(o.board, false) == (if b.commander.Some? then 40 else 20, 0, 0)
              && o.board.field == [] && o.board.grave == [] && o.board.exiled == []
  {
  }

  /** A reset that completes deals an opening hand of seven cards (all of
      them when the deck holds fewer) from the deck's cards other than the
      commander, the rest of which make up the library. */
  lemma ResetDeals(b: Board, rand: Shuffler)
    requires Valid(b)
    requires IsShuffler(rand)
    ensures var o := Reset(b, rand);
            var pool := NonCommanders(b.cards, b.deck);
            o.error.None? ==>
              && |o.board.hand| == (if |pool| < 7 then |pool| else 7)
              && multiset(o.board.hand + o.board.library) == multiset(pool)
  {
    var sent := SendCommander(b);
    SendCommanderKeepsPool(b);
    if sent.error.None? {
      RedealDeals(Restart(sent.board), rand);
    }
  }

  /** Sending the commander to the command zone leaves the deck's other
      cards, the ones a reshuffle gathers, as they were. */
  lemma SendCommanderKeepsPool(b: Board)
    requires Valid(b)
    ensures var sent := SendCommander(b);
            sent.error.None? ==> NonCommanders(sent.board.cards, sent.board.deck) == NonCommanders(b.cards, b.deck)
  {
    if b.commander.Some? && SendCommander(b).error.None? {
      var h := b.commander.value;
      MoveKeepsKind(b.cards[h], Command);
      NonCommandersAfterSet(b.cards, b.deck, h, Move(b.cards[h], Command).value);
    }
  }

  /** The deal that ends a reset: seven cards, or all the deck's
      non-commanders when there are fewer, in the hand; the rest in the
      library. */
  lemma RedealDeals(b: Board, rand: Shuffler)
    requires Valid(b)
    requires IsShuffler(rand)
    ensures var o := Redeal(b, rand);
            var pool := NonCommanders(b.cards, b.deck);
            o.error.None? ==>
              && |o.board.hand| == (if |pool| < 7 then |pool| else 7)
              && multiset(o.board.hand + o.board.library) == multiset(pool)
  {
    ReshufflePermutes(b, rand);
    var r := Reshuffle(b, rand);
    if r.error.None? {
      var pool := NonCommanders(b.cards, b.deck);
      assert |r.board.library| == |pool| by {
        assert |multiset(r.board.library)| == |multiset(pool)|;
      }
      OpeningHand(r.board);
      var d := Draw(r.board, 7);
      if d.error.None? {
        assert Redeal(b, rand).board == d.board.(turn := d.board.turn + 1);
      }
    }
  }

  /** Drawing seven into an empty hand. */
  lemma OpeningHand(r: Board)
    requires Valid(r) && r.hand == []
    ensures var d := Draw(r, 7);
            d.error.None? ==>
              && |d.board.hand| == (if |r.library| < 7 then |r.library| else 7)
              && d.board.hand + d.board.library == r.library
  {
  }

  // ---------------------------------------------------------------------------
  // nextTurn (play.py:1144-1152) and the pass after each command (play.py:2136-2137)
  // ---------------------------------------------------------------------------

  /** `nextTurn()`: the end-of-turn reset, the turn count, the untap step,
      the upkeep, and one card drawn. */
  function NextTurn(b: Board): (o: Outcome)
    requires Valid(b)
    ensures Valid(o.board) && |o.board.cards| == |b.cards|
  {
    Draw(Upkept(b), 1)
  }

  /** The turn passes of nextTurn, before its draw. */
  function Upkept(b: Board): (r: Board)
    requires Valid(b)
    ensures Valid(r) && |r.cards| == |b.cards|
    ensures r.library == b.library && r.hand == b.hand && r.field == b.field
    ensures r.turn == b.turn + 1
  {
    var ended := EndTurnAll(b);
    UpkeepAll(UntapAll(ended.(turn := ended.turn + 1)))
  }

  /** The turn passes change only field cards: each has its end-of-turn
      reset, untaps unless it says otherwise, and is no longer summoning sick. */
  lemma UpkeptCards(b: Board, h: nat)
    requires Valid(b) && h < |b.cards|
    ensures Upkept(b).cards[h]
            == if h in b.field then Cards.NextTurn(UntapUnlessHeld(EndTurn(b.cards[h]))) else b.cards[h]
  {
    var ended := EndTurnAll(b).(turn := b.turn + 1);
    EndTurnAllEffect(b, h);
    UntapAllEffect(ended, h);
    UpkeepAllEffect(UntapAll(ended), h);
    if h in b.field {
      UntapStepKeepsIdentity(EndTurn(b.cards[h]));
    }
  }

  /** The next turn advances the count by one and draws the top card, which
      joins the hand, when it is in the library zone and not on the field. */
  lemma NextTurnDraws(b: Board)
    requires Valid(b) && b.library != [] && b.cards[b.library[0]].zone == Library && b.library[0] !in b.field
    ensures var o := NextTurn(b);
            && o.error.None? && o.board.turn == b.turn + 1
            && o.board.hand == b.hand + [b.library[0]] && o.board.library == b.library[1..]
  {
    var u := Upkept(b);
    UpkeptCards(b, b.library[0]);
    assert DrawCount(u, 1) == 1;
    assert u.library[..1] == [b.library[0]];
    DrawMovesTop(u, 1);
  }

  /** The pass after a state-changing command that completed: anthems, then
      the state-based actions. */
  function Settle(b: Board): (o: Outcome)
    requires Valid(b)
    ensures Valid(o.board) && |o.board.cards| == |b.cards|
  {
    StateBased(ApplyAnthems(b))
  }
}
