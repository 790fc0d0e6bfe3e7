/**
 * The module-level state of play.py as one object: the card arena, the zone
 * lists of handles, the players' counters and flags and the turn
 * bookkeeping, each a field that the commands update in place, with the
 * source's loops. Every command is proved against the value-level function
 * of the same name over the board its fields make up, and what the source
 * promises is proved about those functions in their own modules.
 */
module Game {
  import opened Wrappers
  import opened Lists
  import opened Text
  import opened Cards
  import opened Lookup
  import opened Boards
  import opened Removals
  import opened Effects
  import opened Anthems
  import Zones

  class Game {
    var cards: seq<Card>
    var deck: seq<nat>
    var library: seq<nat>
    var hand: seq<nat>
    var field: seq<nat>
    var grave: seq<nat>
    var exiled: seq<nat>
    var commander: Option<nat>
    var p1Life: int
    var p1Poison: int
    var p1Commander: int
    var p2Life: int
    var p2Poison: int
    var p2Commander: int
    var p1Win: bool
    var p2Win: bool
    var gameOver: bool
    var turn: int
    var mulls: int
    var commandPlayCount: int
    var revealed: bool
    var shuffles: nat

    /** The board the fields make up. */
    function State(): Board
      reads this
    {
      Board(cards, deck, library, hand, field, grave, exiled, commander,
            p1Life, p1Poison, p1Commander, p2Life, p2Poison, p2Commander,
            p1Win, p2Win, gameOver, turn, mulls, commandPlayCount, revealed, shuffles)
    }

    predicate Valid()
      reads this
    {
      Boards.Valid(State())
    }

    /** A game holding the given board. */
    constructor (b: Board)
      requires Boards.Valid(b)
      ensures Valid() && State() == b
    {
      cards, deck, library, hand, field, grave, exiled, commander := b.cards, b.deck, b.library, b.hand, b.field, b.grave, b.exiled, b.commander;
      p1Life, p1Poison, p1Commander, p2Life, p2Poison, p2Commander := b.p1Life, b.p1Poison, b.p1Commander, b.p2Life, b.p2Poison, b.p2Commander;
      p1Win, p2Win, gameOver := b.p1Win, b.p2Win, b.gameOver;
      turn, mulls, commandPlayCount, revealed, shuffles := b.turn, b.mulls, b.commandPlayCount, b.revealed, b.shuffles;
    }

    /** `draw(n)`: pop the top of the library, draw it, append it to the hand;
        an empty library ends the loop. */
    method Draw(n: int) returns (err: Option<Error>)
      requires Valid()
      ensures Valid()
      modifies this`library, this`cards, this`hand
      ensures Outcome(State(), err) == Zones.Draw(old(State()), n)
    {
      err := None;
      var i := 0;
      while i < n && library != []
        invariant Valid() && err.None?
        invariant Zones.Draw(State(), n - i) == Zones.Draw(old(State()), n)
        decreases n - i
      {
        ghost var b := State();
        Zones.DrawUnfold(b, n - i);
        err := DrawTop();
        if err.Some? {
          assert Outcome(State(), err) == Zones.DrawTop(b);
          return;
        }
        i := i + 1;
      }
    }

    /** One pass of the draw loop: `card = library.pop(0)`, `card.draw()`,
        `hand.append(card)`. */
    method DrawTop() returns (err: Option<Error>)
      requires Valid() && library != []
      modifies this`library, this`cards, this`hand
      ensures Outcome(State(), err) == Zones.DrawTop(old(State()))
    {
      var h := library[0];
      library := library[1..];
      match Cards.Draw(cards[h])
      case Err(e) =>
        err := Some(e);
      case Ok(c) =>
        cards := cards[h := c];
        hand := hand + [h];
        err := None;
    }

    /** `for card in field: card.op()`, on the cards the reach selects. */
    method Pass(reach: Option<CardType>, op: CardOp)
      requires Handles(cards, field)
      modifies this`cards
      ensures cards == ForField(old(cards), field, reach, op)
    {
      var i := 0;
      while i < |field|
        invariant 0 <= i <= |field| && |cards| == |old(cards)|
        invariant ForField(cards, field[i..], reach, op) == ForField(old(cards), field, reach, op)
      {
        var h := field[i];
        assert field[i..][1..] == field[i + 1..];
        if Selected(reach, cards[h]) {
          cards := cards[h := ApplyOp(op, cards[h])];
        }
        i := i + 1;
      }
    }

    /** `endTurn()`: every field card's end-of-turn reset. */
    method EndTurn()
      requires Valid()
      modifies this`cards
      ensures Valid() && State() == EndTurnAll(old(State()))
    {
      Pass(None, EndOfTurn);
    }

    /** `untapAll()`: the untap step. */
    method UntapAll()
      requires Valid()
      modifies this`cards
      ensures Valid() && State() == Effects.UntapAll(old(State()))
    {
      Pass(None, UntapStep);
    }

    /** The upkeep loop of `nextTurn()`. */
    method UpkeepAll()
      requires Valid()
      modifies this`cards
      ensures Valid() && State() == Effects.UpkeepAll(old(State()))
    {
      Pass(None, Upkeep);
    }

    /** tap, untap, counters, power, toughness and plusone on one card, or on
        every field card of a type. */
    method Adjust(target: Target, op: CardOp)
      requires Valid() && (target.OneCard? ==> target.handle < |cards|)
      modifies this
      ensures Valid() && State() == Effects.Adjust(old(State()), target, op)
    {
      match target
      case OneCard(h) =>
        cards := cards[h := ApplyOp(op, cards[h])];
      case AllOfType(t) =>
        Pass(Some(t), op);
    }

    /** `nextTurn()`: end the turn, count it, untap, upkeep, draw one. */
    method NextTurn() returns (err: Option<Error>)
      requires Valid()
      modifies this`cards, this`turn, this`library, this`hand
      ensures Valid()
      ensures Outcome(State(), err) == Zones.NextTurn(old(State()))
    {
      EndTurn();
      CountTurn();
      UntapAll();
      UpkeepAll();
      err := Draw(1);
    }

    /** `turn += 1`. */
    method CountTurn()
      requires Valid()
      modifies this`turn
      ensures Valid() && State() == old(State()).(turn := old(State()).turn + 1)
    {
      turn := turn + 1;
    }

    /** `shuffle()`: `random.shuffle(library)`. */
    method Shuffle(rand: Shuffler)
      requires Valid() && IsShuffler(rand)
      modifies this`library, this`shuffles
      ensures State() == Boards.Shuffle(old(State()), rand) && Valid()
    {
      library := rand(library, shuffles);
      shuffles := shuffles + 1;
    }

    // -------------------------------------------------------------------------
    // Zone commands
    // -------------------------------------------------------------------------

    /** `discard(card)`: the card's own discard, `hand.remove(card)`, then the
        front of the graveyard. */
    method Discard(target: Target) returns (err: Option<Error>)
      requires Valid() && (target.OneCard? ==> target.handle < |cards|)
      modifies this`cards, this`hand, this`grave
      ensures Outcome(State(), err) == Zones.Discard(old(State()), target)
    {
      match target
      case AllOfType(_) =>
        return Some(Uncaught("AttributeError"));
      case OneCard(h) =>
        err := DiscardCard(h);
    }

    /** `discard` of one card. */
    method DiscardCard(h: nat) returns (err: Option<Error>)
      requires Valid() && h < |cards|
      modifies this`cards, this`hand, this`grave
      ensures Outcome(State(), err) == Zones.DiscardCard(old(State()), h)
    {
      SetCard(h, Cards.Discard(cards[h]));
      err := HandToGrave(h);
    }

    /** `hand.remove(card)` and `grave.insert(0, card)`. */
    method HandToGrave(h: nat) returns (err: Option<Error>)
      requires Valid() && h < |cards|
      modifies this`hand, this`grave
      ensures Outcome(State(), err) == Zones.HandToGrave(old(State()), h)
    {
      if h !in hand {
        return Some(Uncaught("ValueError"));
      }
      hand := RemoveFirst(hand, h);
      grave := [h] + grave;
      return None;
    }

    /** `play(card)`: the playability test, the command-zone count, the card
        out of the hand and off the top of the library, its own play, and the
        list its new zone names. */
    method Play(target: Target, rand: Shuffler) returns (err: Option<Error>)
      requires Valid() && (target.OneCard? ==> target.handle < |cards|) && IsShuffler(rand)
      modifies this`cards, this`hand, this`library, this`field, this`grave, this`exiled
      modifies this`commandPlayCount, this`shuffles
      ensures Outcome(State(), err) == Zones.Play(old(State()), target, rand)
    {
      match target
      case AllOfType(_) =>
        return None;
      case OneCard(h) =>
        if !Zones.Playable(State(), h) {
          return Some(ZoneError(Name(cards[h]) + " needs to be in your hand to play it."));
        }
        ghost var b := State();
        CountCommandPlay(h);
        Unlist(h);
        SetCard(h, Cards.Play(cards[h]));
        assert State() == Zones.Taken(b, h, Cards.Play(b.cards[h]));
        err := PlaceAfterPlay(h, rand);
    }

    /** `commandPlayCount += 1` when the commander is played from the command
        zone. */
    method CountCommandPlay(h: nat)
      requires Valid() && h < |cards|
      modifies this`commandPlayCount
      ensures State() == Zones.Counted(old(State()), h)
    {
      if commander == Some(h) && cards[h].zone == Command {
        commandPlayCount := commandPlayCount + 1;
      }
    }

    /** `hand.remove(card)` and `library.pop(0)`, each when it applies. */
    method Unlist(h: nat)
      requires Valid()
      modifies this`hand, this`library
      ensures State() == Zones.Unlisted(old(State()), h)
    {
      HandlesRemove(cards, hand, h);
      HandlesDrop(cards, library);
      if h in hand {
        hand := RemoveFirst(hand, h);
      }
      if library != [] && h == library[0] {
        library := library[1..];
      }
    }

    /** The routing at the end of `play`, on the zone the card is now in. */
    method PlaceAfterPlay(h: nat, rand: Shuffler) returns (err: Option<Error>)
      requires Valid() && h < |cards| && IsShuffler(rand)
      modifies this`cards, this`library, this`field, this`grave, this`exiled, this`shuffles
      ensures Outcome(State(), err) == Zones.PlaceAfterPlay(old(State()), h, rand)
    {
      var z := cards[h].zone;
      if z == Bottom || z == Top {
        err := ReturnToLibrary(h);
      } else {
        Place(h, rand);
        err := None;
      }
    }

    /** `grave.insert(0, card)`, `exiled.insert(0, card)`, `field.append(card)`
        or `library.append(card)` then a shuffle, on the card's zone. */
    method Place(h: nat, rand: Shuffler)
      requires Valid() && h < |cards| && IsShuffler(rand)
      modifies this`library, this`field, this`grave, this`exiled, this`shuffles
      ensures State() == Zones.Placed(old(State()), h, rand)
    {
      HandlesSnoc(cards, library, h);
      var z := cards[h].zone;
      if z == Graveyard {
        grave := [h] + grave;
      } else if z == Exile {
        exiled := [h] + exiled;
      } else if z == Battlefield {
        field := field + [h];
      } else if z == Library {
        library := library + [h];
        Shuffle(rand);
      }
    }

    /** A card played to the top or the bottom: `library.insert(0, card)` or
        `library.append(card)`, then `card.move(LIBRARY)`. */
    method ReturnToLibrary(h: nat) returns (err: Option<Error>)
      requires Valid() && h < |cards|
      modifies this`cards, this`library
      ensures Outcome(State(), err) == Zones.Returned(old(State()), h)
    {
      if cards[h].zone == Bottom {
        library := library + [h];
      } else {
        library := [h] + library;
      }
      match Cards.Move(cards[h], Library)
      case Err(e) =>
        return Some(e);
      case Ok(m) =>
        cards := cards[h := m];
        return None;
    }

    /** `move(fromZone, toZone, cardArgs)`: both zone names resolved, the card
        picked by name or off the top or bottom of the library, then moved. */
    method Move(from: string, to: string, cardArgs: Option<seq<string>>, rand: Shuffler) returns (err: Option<Error>)
      requires Valid() && IsShuffler(rand)
      modifies this`cards, this`hand, this`library, this`field, this`grave, this`exiled, this`shuffles
      ensures Outcome(State(), err) == Zones.MoveCmd(old(State()), from, to, cardArgs, rand)
    {
      var f := GetZoneNameFromString(from);
      var t := GetZoneNameFromString(to);
      if f.None? || t.None? {
        return Some(ZoneError("Zone does not exist, or zone name is not specific enough."));
      }
      var fz, tz := f.value, t.value;
      if (fz == Top || fz == Bottom) && cardArgs.Some? {
        return Some(ZoneError("Can't move a specific card from top or bottom."));
      }
      if (fz == Top || fz == Bottom) && library == [] {
        return Some(Uncaught("IndexError"));
      }
      var picked := Pick(fz, cardArgs);
      match picked
      case Err(e) =>
        return Some(e);
      case Ok(None) =>
        return Some(CardNotFound("Card"));
      case Ok(Some(AllOfType(_))) =>
        if Zones.Searched(State(), fz) != [] {
          return Some(Uncaught("ValueError"));
        }
        return Some(Uncaught("AttributeError"));
      case Ok(Some(OneCard(h))) =>
        Zones.PickedHandle(State(), fz, cardArgs, h);
        err := MoveCard(fz, tz, h, rand);
    }

    /** `getCard(cardArgs, fromZone)` when card words are given, else
        `library[0]` or `library[-1]` for the top or the bottom. */
    method Pick(from: Zone, cardArgs: Option<seq<string>>) returns (r: Result<Option<Target>>)
      requires Valid() && ((from == Top || from == Bottom) ==> library != [])
      ensures r == Zones.Picked(State(), from, cardArgs)
    {
      if cardArgs.Some? && cardArgs.value != [] {
        var found := GetCard(cards, cardArgs.value, Zones.Searched(State(), from), library, false);
        match found
        case Err(e) =>
          return Err(e);
        case Ok(x) =>
          return Ok(Some(x));
      } else if from == Top {
        return Ok(Some(OneCard(library[0])));
      } else if from == Bottom {
        return Ok(Some(OneCard(library[|library| - 1])));
      }
      return Ok(None);
    }

    /** The second half of `move`, for a resolved card: out of its source list
        (the library then shuffled), into its target list unless it is a
        token, the command-zone check, and the card's own move. */
    method MoveCard(from: Zone, to: Zone, h: nat, rand: Shuffler) returns (err: Option<Error>)
      requires Valid() && h < |cards| && IsShuffler(rand)
      modifies this`cards, this`hand, this`library, this`field, this`grave, this`exiled, this`shuffles
      ensures Outcome(State(), err) == Zones.MoveCard(old(State()), from, to, h, rand)
    {
      var c := cards[h];
      Relocate(from, to, h, rand);
      err := Retag(c, to, h);
    }

    /** The command-zone check, then `card.move(toZone)`. */
    method Retag(c: Card, to: Zone, h: nat) returns (err: Option<Error>)
      requires Valid() && h < |cards|
      modifies this`cards
      ensures Outcome(State(), err) == Zones.Retagged(old(State()), c, to, h)
    {
      var target := Zones.Told(to, IsToken(c));
      if target == Command && !c.commander {
        return Some(ZoneError(Name(c) + " can't be put in the command zone."));
      }
      match Cards.Move(c, target)
      case Err(e) =>
        return Some(e);
      case Ok(m) =>
        cards := cards[h := m];
        return None;
    }

    /** The list changes of `move`: out of the source (the library then
        shuffled), into the target unless the card is a token. */
    method Relocate(from: Zone, to: Zone, h: nat, rand: Shuffler)
      requires Valid() && h < |cards| && IsShuffler(rand)
      modifies this`hand, this`library, this`field, this`grave, this`exiled, this`shuffles
      ensures State() == Zones.Relocated(old(State()), from, to, h, rand)
    {
      var token := IsToken(cards[h]);
      TakeFrom(from, h);
      if from == Library {
        Shuffle(rand);
      }
      if !token {
        PutInto(to, h, rand);
      }
    }

    /** `fromZone.remove(card)` on the list a zone names. */
    method TakeFrom(z: Zone, h: nat)
      requires Valid()
      modifies this`hand, this`field, this`exiled, this`grave, this`library
      ensures State() == Zones.TakeFrom(old(State()), z, h)
    {
      if z == Hand {
        hand := RemoveFirst(hand, h);
      } else if z == Battlefield {
        field := RemoveFirst(field, h);
      } else {
        TakeFromOther(z, h);
      }
    }

    /** `fromZone.remove(card)` on the exile, the graveyard or the library;
        nothing for the command zone. */
    method TakeFromOther(z: Zone, h: nat)
      requires Valid() && z != Hand && z != Battlefield
      modifies this`exiled, this`grave, this`library
      ensures State() == Zones.TakeFrom(old(State()), z, h)
    {
      if z == Exile {
        exiled := RemoveFirst(exiled, h);
      } else if z == Graveyard {
        grave := RemoveFirst(grave, h);
      } else if z != Command {
        library := RemoveFirst(library, h);
      }
    }

    /** The insertion into the target list of `move`. */
    method PutInto(z: Zone, h: nat, rand: Shuffler)
      requires Valid() && h < |cards| && IsShuffler(rand)
      modifies this`hand, this`field, this`exiled, this`grave, this`library, this`shuffles
      ensures State() == Zones.PutInto(old(State()), z, h, rand)
    {
      if z == Library || z == Top || z == Bottom {
        PutInLibrary(z, h, rand);
      } else {
        PutOnPile(z, h, rand);
      }
    }

    /** `library.append(card)` then a shuffle, `library.insert(0, card)`, or
        `library.append(card)`. */
    method PutInLibrary(z: Zone, h: nat, rand: Shuffler)
      requires Valid() && h < |cards| && IsShuffler(rand) && (z == Library || z == Top || z == Bottom)
      modifies this`library, this`shuffles
      ensures State() == Zones.PutInto(old(State()), z, h, rand)
    {
      HandlesSnoc(cards, library, h);
      if z == Library {
        library := library + [h];
        Shuffle(rand);
      } else if z == Top {
        library := [h] + library;
      } else {
        library := library + [h];
      }
    }

    /** `field.append(card)`, `hand.append(card)`, `exiled.append(card)` or
        `grave.insert(0, card)`; nothing for the command zone. */
    method PutOnPile(z: Zone, h: nat, rand: Shuffler)
      requires Valid() && h < |cards| && IsShuffler(rand) && z != Library && z != Top && z != Bottom
      modifies this`hand, this`field, this`exiled, this`grave
      ensures State() == Zones.PutInto(old(State()), z, h, rand)
    {
      match z
      case Battlefield => field := field + [h];
      case Hand => hand := hand + [h];
      case Exile => exiled := exiled + [h];
      case Graveyard => grave := [h] + grave;
      case Command =>
    }

    /** `reshuffle()`: the five lists emptied, every deck card but the
        commander moved to the library, then the library shuffled. */
    method Reshuffle(rand: Shuffler) returns (err: Option<Error>)
      requires Valid() && IsShuffler(rand)
      modifies this`cards, this`library, this`hand, this`grave, this`exiled, this`field, this`shuffles
      ensures Outcome(State(), err) == Zones.Reshuffle(old(State()), rand)
    {
      Clear();
      err := Gather();
      if err.None? {
        Shuffle(rand);
      }
    }

    /** `del library[:]` and the like for the hand, graveyard, exile and
        field. */
    method Clear()
      requires Valid()
      modifies this`library, this`hand, this`grave, this`exiled, this`field
      ensures State() == Zones.Cleared(old(State()))
    {
      library, hand := [], [];
      EmptyPiles();
    }

    /** `del grave[:]`, `del exiled[:]` and `del field[:]`. */
    method EmptyPiles()
      modifies this`grave, this`exiled, this`field
      ensures State() == old(State()).(grave := [], exiled := [], field := [])
    {
      grave, exiled, field := [], [], [];
    }

    /** The loop of `reshuffle()` over the deck. */
    method Gather() returns (err: Option<Error>)
      requires Valid()
      modifies this`cards, this`library
      ensures Outcome(State(), err) == Zones.GatherFrom(old(State()), deck)
    {
      var i := 0;
      while i < |deck|
        invariant 0 <= i <= |deck| && Valid() && Handles(cards, deck[i..])
        invariant Zones.GatherFrom(State(), deck[i..]) == Zones.GatherFrom(old(State()), deck)
      {
        assert deck[i..][1..] == deck[i + 1..];
        Zones.GatherUnfold(State(), deck[i..]);
        err := GatherOne(deck[i]);
        if err.Some? {
          return;
        }
        i := i + 1;
      }
      return None;
    }

    /** One pass of the loop: a deck card other than the commander is moved
        to the library zone and appended to the library. */
    method GatherOne(h: nat) returns (err: Option<Error>)
      requires Valid() && h < |cards|
      modifies this`cards, this`library
      ensures Outcome(State(), err) == Zones.GatherOne(old(State()), h)
    {
      if cards[h].commander {
        return None;
      }
      match Cards.Move(cards[h], Library)
      case Err(e) =>
        return Some(e);
      case Ok(m) =>
        cards := cards[h := m];
        library := library + [h];
        return None;
    }

    /** `mulligan()`: on turn 1 only, a reshuffle, one more mulligan, and a
        draw of seven less the mulligans (the first one free with a
        commander). */
    method Mulligan(rand: Shuffler) returns (err: Option<Error>)
      requires Valid() && IsShuffler(rand)
      modifies this`cards, this`library, this`hand, this`grave, this`exiled, this`field, this`shuffles, this`mulls
      ensures Outcome(State(), err) == Zones.Mulligan(old(State()), rand)
    {
      if turn != 1 {
        return None;
      }
      err := Reshuffle(rand);
      if err.Some? {
        return;
      }
      err := Redraw();
    }

    /** The end of `mulligan()`: `mulls += 1`, then the new hand drawn. */
    method Redraw() returns (err: Option<Error>)
      requires Valid()
      modifies this`cards, this`library, this`hand, this`mulls
      ensures Outcome(State(), err) == Zones.Redraw(old(State()))
    {
      mulls := mulls + 1;
      var n := if commander.Some? then 7 - (mulls - 1) else 7 - mulls;
      err := Draw(n);
    }

    /** `reset()`: the opening life totals (the commander sent to the command
        zone), every counter and flag cleared, a reshuffle, seven cards drawn,
        and turn 1. */
    method Reset(rand: Shuffler) returns (err: Option<Error>)
      requires Valid() && IsShuffler(rand)
      modifies this`cards, this`library, this`hand, this`grave, this`exiled, this`field, this`shuffles
      modifies this`p1Life, this`p2Life, this`p1Poison, this`p2Poison, this`p1Commander, this`p2Commander
      modifies this`p1Win, this`p2Win, this`turn, this`mulls, this`commandPlayCount, this`gameOver
      ensures Outcome(State(), err) == Zones.Reset(old(State()), rand)
    {
      err := SendCommander();
      if err.Some? {
        return;
      }
      Restart();
      err := Redeal(rand);
    }

    /** The end of `reset()`: a reshuffle, seven cards drawn, and the turn
        count advanced to 1. */
    method Redeal(rand: Shuffler) returns (err: Option<Error>)
      requires Valid() && IsShuffler(rand)
      modifies this`cards, this`library, this`hand, this`grave, this`exiled, this`field, this`shuffles, this`turn
      ensures Outcome(State(), err) == Zones.Redeal(old(State()), rand)
    {
      err := Reshuffle(rand);
      if err.Some? {
        return;
      }
      err := Draw(7);
      if err.Some? {
        return;
      }
      CountTurn();
    }

    /** The commander half of `reset()`: the opening life totals, and the
        commander's move to the command zone. */
    method SendCommander() returns (err: Option<Error>)
      requires Valid()
      modifies this`p1Life, this`p2Life, this`cards
      ensures Outcome(State(), err) == Zones.SendCommander(old(State()))
    {
      if commander.Some? {
        p1Life, p2Life := 40, 40;
        match Cards.Move(cards[commander.value], Command)
        case Err(e) =>
          return Some(e);
        case Ok(m) =>
          cards := cards[commander.value := m];
      } else {
        p1Life, p2Life := 20, 20;
      }
      return None;
    }

    /** The counters, flags and counts `reset()` clears. */
    method Restart()
      requires Valid()
      modifies this`p1Poison, this`p2Poison, this`p1Commander, this`p2Commander, this`p1Win, this`p2Win
      modifies this`turn, this`mulls, this`commandPlayCount, this`gameOver
      ensures State() == Zones.Restart(old(State()))
    {
      ClearCounters();
      ClearFlags();
      ClearCounts();
    }

    /** Poison and commander damage back to zero. */
    method ClearCounters()
      modifies this`p1Poison, this`p2Poison, this`p1Commander, this`p2Commander
      ensures State() == old(State()).(p1Poison := 0, p2Poison := 0, p1Commander := 0, p2Commander := 0)
    {
      p1Poison, p2Poison, p1Commander, p2Commander := 0, 0, 0, 0;
    }

    /** No winner, and the game not over. */
    method ClearFlags()
      modifies this`p1Win, this`p2Win, this`gameOver
      ensures State() == old(State()).(p1Win := false, p2Win := false, gameOver := false)
    {
      p1Win, p2Win, gameOver := false, false, false;
    }

    /** The turn, mulligan and command-play counts back to zero. */
    method ClearCounts()
      modifies this`turn, this`mulls, this`commandPlayCount
      ensures State() == old(State()).(turn := 0, mulls := 0, commandPlayCount := 0)
    {
      turn, mulls, commandPlayCount := 0, 0, 0;
    }

    // -------------------------------------------------------------------------
    // Counters and combat
    // -------------------------------------------------------------------------

    /** `modStat(player, stat, n)`. */
    method ModStat(player: string, stat: string, n: int) returns (err: Option<Error>)
      modifies this`p1Life, this`p1Poison, this`p1Commander, this`p2Life, this`p2Poison, this`p2Commander, this`p1Win, this`p2Win
      ensures Outcome(State(), err) == Boards.ModStat(old(State()), player, stat, n)
    {
      err := None;
      if player == "p1" {
        ModStatOne(stat, n);
      } else if player == "p2" {
        ModStatTwo(stat, n);
      } else {
        err := Some(CommandError);
      }
    }

    /** The branch of modStat for player one. */
    method ModStatOne(stat: string, n: int)
      modifies this`p1Life, this`p1Poison, this`p1Commander, this`p2Win
      ensures Side(p1Life, p1Poison, p1Commander, p2Win) == Bump(Side(old(p1Life), old(p1Poison), old(p1Commander), old(p2Win)), stat, n)
    {
      if stat == "life" {
        p1Life := p1Life + n;
        if p1Life <= 0 { p2Win := true; }
      } else if stat == "poison" {
        p1Poison := p1Poison + n;
        if p1Poison >= 10 { p2Win := true; }
      } else if stat == "commander" {
        p1Commander := p1Commander + n;
        p1Life := p1Life - n;
        if p1Commander > 20 { p2Win := true; }
      }
    }

    /** The branch of modStat for player two. */
    method ModStatTwo(stat: string, n: int)
      modifies this`p2Life, this`p2Poison, this`p2Commander, this`p1Win
      ensures Side(p2Life, p2Poison, p2Commander, p1Win) == Bump(Side(old(p2Life), old(p2Poison), old(p2Commander), old(p1Win)), stat, n)
    {
      if stat == "life" {
        p2Life := p2Life + n;
        if p2Life <= 0 { p1Win := true; }
      } else if stat == "poison" {
        p2Poison := p2Poison + n;
        if p2Poison >= 10 { p1Win := true; }
      } else if stat == "commander" {
        p2Commander := p2Commander + n;
        p2Life := p2Life - n;
        if p2Commander > 20 { p1Win := true; }
      }
    }

    /** `checkVictory()`. */
    method CheckVictory()
      modifies this`gameOver
      ensures State() == Boards.CheckVictory(old(State()))
    {
      if p1Win { gameOver := true; }
      if p2Win { gameOver := true; }
    }

    /** `attack(attackers)`: the totals summed over the attackers, each
        tapped unless it has Vigilance, then dealt to player two. */
    method Attack(attackers: seq<nat>) returns (err: Option<Error>)
      requires Handles(cards, attackers)
      modifies this`cards, this`p2Life, this`p2Poison, this`p2Commander, this`p1Win
      ensures Outcome(State(), err) == Boards.Attack(old(State()), attackers)
    {
      var t;
      t, err := Strike(attackers);
      if err.None? {
        Deal(t);
      }
    }

    /** The loop of `attack`. */
    method Strike(attackers: seq<nat>) returns (t: Totals, err: Option<Error>)
      requires Handles(cards, attackers)
      modifies this`cards
      ensures Combat(cards, t, err) == AttackFrom(old(cards), commander, attackers, Totals(0, 0, 0))
    {
      t := Totals(0, 0, 0);
      var i := 0;
      while i < |attackers|
        invariant 0 <= i <= |attackers| && |cards| == |old(cards)|
        invariant AttackFrom(cards, commander, attackers[i..], t) == AttackFrom(old(cards), commander, attackers, Totals(0, 0, 0))
      {
        var h := attackers[i];
        var c := cards[h];
        assert attackers[i..][1..] == attackers[i + 1..];
        match Power(c)
        case Err(e) =>
          return t, Some(e);
        case Ok(None) =>
          return t, Some(Uncaught("TypeError"));
        case Ok(Some(p)) =>
          t := Add(t, Damage(p, c), "Infect" in Keywords(c), commander == Some(h));
          if "Vigilance" !in Keywords(c) {
            cards := cards[h := Tap(c)];
          }
        i := i + 1;
      }
      return t, None;
    }

    /** The three `modStat` calls that end `attack`. */
    method Deal(t: Totals)
      modifies this`p2Life, this`p2Poison, this`p2Commander, this`p1Win
      ensures State() == Apply(old(State()), t)
    {
      ModStatTwo("life", -t.normal);
      ModStatTwo("poison", t.poison);
      ModStatTwo("commander", t.commander);
    }

    // -------------------------------------------------------------------------
    // Removal
    // -------------------------------------------------------------------------

    /** Where a card that has left the field goes. */
    method Deposit(h: nat, r: Removal)
      requires Valid() && h < |cards|
      modifies this`hand, this`grave, this`exiled
      ensures State() == Removals.Deposit(old(State()), h, r)
    {
      if IsToken(cards[h]) {
      } else if r == BounceIt {
        hand := hand + [h];
      } else if commander == Some(h) {
      } else if r == ExileIt {
        exiled := [h] + exiled;
      } else {
        grave := [h] + grave;
      }
    }

    /** `kill`, `exile`, `sacrifice` or `bounce`, of one card or of a type. */
    method Remove(target: Target, r: Removal) returns (err: Option<Error>)
      requires Valid() && (target.OneCard? ==> target.handle < |cards|)
      modifies this`cards, this`field, this`hand, this`grave, this`exiled
      ensures Outcome(State(), err) == Removals.Remove(old(State()), target, r)
    {
      match target
      case OneCard(h) =>
        err := RemoveCard(h, r);
      case AllOfType(t) =>
        err := RemoveOfType(t, r);
    }

    /** `kill`, `exile`, `sacrifice` or `bounce` of one card. */
    method RemoveCard(h: nat, r: Removal) returns (err: Option<Error>)
      requires Valid() && h < |cards|
      modifies this`cards, this`field, this`hand, this`grave, this`exiled
      ensures Outcome(State(), err) == Removals.RemoveCard(old(State()), h, r)
    {
      var c := cards[h];
      if Spared(r, c) {
        return None;
      }
      match Cards.Move(c, RemovalZone(r))
      case Err(e) =>
        return Some(e);
      case Ok(moved) =>
        err := TakeOut(h, moved, r);
    }

    /** The moved card leaves the field and is put where it belongs. */
    method TakeOut(h: nat, moved: Card, r: Removal) returns (err: Option<Error>)
      requires Valid() && h < |cards|
      modifies this`cards, this`field, this`hand, this`grave, this`exiled
      ensures Outcome(State(), err) == Removals.TakeOut(old(State()), h, moved, r)
    {
      ValidResized(State(), cards[h := moved]);
      SetCard(h, moved);
      err := TakeFromField(h);
      if err.None? {
        Deposit(h, r);
      }
    }

    /** The card with handle h becomes c. */
    method SetCard(h: nat, c: Card)
      requires h < |cards|
      modifies this`cards
      ensures State() == old(State()).(cards := old(cards)[h := c])
    {
      cards := cards[h := c];
    }

    /** `field.remove(card)`, with the source's ValueError when the card is
        not on the field. */
    method TakeFromField(h: nat) returns (err: Option<Error>)
      requires Valid()
      modifies this`field
      ensures Outcome(State(), err) == Removals.TakeFromField(old(State()), h)
    {
      if h !in field {
        return Some(Uncaught("ValueError"));
      }
      field := RemoveFirst(field, h);
      return None;
    }

    /** `kill`, `exile`, `sacrifice` or `bounce` of a type: the field cards of
        the type are moved and recorded, then each leaves the field and is
        put where it belongs. */
    method RemoveOfType(t: CardType, r: Removal) returns (err: Option<Error>)
      requires Valid()
      modifies this`cards, this`field, this`hand, this`grave, this`exiled
      ensures Outcome(State(), err) == Removals.RemoveOfType(old(State()), t, r)
    {
      ghost var b := State();
      var removing;
      removing, err := MoveOfType(t, r);
      ValidResized(b, cards);
      if err.Some? {
        return;
      }
      err := DepositAll(removing, r);
    }

    /** The first loop of a removal by type. */
    method MoveOfType(t: CardType, r: Removal) returns (removing: seq<nat>, err: Option<Error>)
      requires Handles(cards, field)
      modifies this`cards
      ensures Sweep(cards, removing, err) == Removals.MoveOfType(old(cards), t, r, field, [])
    {
      removing := [];
      var i := 0;
      while i < |field|
        invariant 0 <= i <= |field| && |cards| == |old(cards)| && Handles(cards, removing)
        invariant Removals.MoveOfType(cards, t, r, field[i..], removing) == Removals.MoveOfType(old(cards), t, r, field, [])
      {
        var h := field[i];
        var c := cards[h];
        assert field[i..][1..] == field[i + 1..];
        if OfType(c, t) && !Spared(r, c) {
          match Cards.Move(c, RemovalZone(r))
          case Err(e) =>
            return removing, Some(e);
          case Ok(m) =>
            HandlesSnoc(cards, removing, h);
            cards := cards[h := m];
            removing := removing + [h];
        }
        i := i + 1;
      }
      return removing, None;
    }

    /** The second loop of a removal by type. */
    method DepositAll(removing: seq<nat>, r: Removal) returns (err: Option<Error>)
      requires Valid() && Handles(cards, removing)
      modifies this`field, this`hand, this`grave, this`exiled
      ensures Outcome(State(), err) == DepositFrom(old(State()), r, removing)
    {
      var i := 0;
      while i < |removing|
        invariant 0 <= i <= |removing| && Valid()
        invariant DepositFrom(State(), r, removing[i..]) == DepositFrom(old(State()), r, removing)
      {
        var h := removing[i];
        assert removing[i..][1..] == removing[i + 1..];
        if h !in field {
          return Some(Uncaught("ValueError"));
        }
        ghost var before := State();
        DepositFromStep(before, r, removing[i..]);
        field := RemoveFirst(field, h);
        assert State() == before.(field := RemoveFirst(before.field, h));
        Deposit(h, r);
        i := i + 1;
      }
      return None;
    }

    /** `stateBased()`: collect the dead creatures and planeswalkers of the
        field, then kill each. */
    method StateBased() returns (err: Option<Error>)
      requires Valid()
      modifies this`cards, this`field, this`hand, this`grave, this`exiled
      ensures Outcome(State(), err) == Removals.StateBased(old(State()))
    {
      var removing := Doomed();
      DoomedMembers(cards, field, 0);
      err := KillAll(removing);
    }

    /** The first loop of `stateBased()`: the dead creatures and planeswalkers
        of the field, in field order. */
    method Doomed() returns (removing: seq<nat>)
      requires Handles(cards, field)
      ensures removing == Removals.Doomed(cards, field)
    {
      removing := [];
      var i := 0;
      while i < |field|
        invariant 0 <= i <= |field|
        invariant removing == Removals.Doomed(cards, field[..i])
      {
        var h := field[i];
        assert field[..i + 1][..i] == field[..i];
        if DeadCreature(cards[h]) {
          removing := removing + [h];
        }
        if DeadPlaneswalker(cards[h]) {
          removing := removing + [h];
        }
        i := i + 1;
      }
      assert field[..i] == field;
    }

    /** The second loop of `stateBased()`: kill each in turn. */
    method KillAll(removing: seq<nat>) returns (err: Option<Error>)
      requires Valid() && Handles(cards, removing)
      modifies this`cards, this`field, this`hand, this`grave, this`exiled
      ensures Outcome(State(), err) == Removals.KillAll(old(State()), removing)
    {
      var i := 0;
      while i < |removing|
        invariant 0 <= i <= |removing| && Valid() && Handles(cards, removing)
        invariant Removals.KillAll(State(), removing[i..]) == Removals.KillAll(old(State()), removing)
      {
        assert removing[i..][1..] == removing[i + 1..];
        err := RemoveCard(removing[i], KillIt);
        if err.Some? {
          return;
        }
        i := i + 1;
      }
      return None;
    }

    // -------------------------------------------------------------------------
    // Anthems
    // -------------------------------------------------------------------------

    /** The inner loop of `anthem`: the first type word that affects the card
        gives it the grant. */
    static method AffectOnce(types: seq<string>, thing: Card, g: Grant) returns (r: Card)
      ensures r == Anthems.AffectOnce(types, thing, g)
    {
      var j := 0;
      while j < |types|
        invariant 0 <= j <= |types|
        invariant Anthems.AffectOnce(types[j..], thing, g) == Anthems.AffectOnce(types, thing, g)
      {
        assert types[j..][1..] == types[j + 1..];
        if Affects(types[j], thing) {
          return Receive(thing, g);
        }
        j := j + 1;
      }
      return thing;
    }

    /** `anthem(card)` for the field card with handle s. */
    method Anthem(s: nat)
      requires Handles(cards, field) && s < |cards| && HasAnthem(cards[s])
      modifies this`cards
      ensures cards == AnthemFrom(old(cards), s, AnthemTypes(old(cards)[s]).value,
                                  Grant(AnthemPower(old(cards)[s]).value, AnthemToughness(old(cards)[s]).value,
                                        AnthemKeywords(old(cards)[s])), field)
    {
      var src := cards[s];
      var types := AnthemTypes(src).value;
      var g := Grant(AnthemPower(src).value, AnthemToughness(src).value, AnthemKeywords(src));
      var i := 0;
      while i < |field|
        invariant 0 <= i <= |field| && |cards| == |old(cards)|
        invariant AnthemFrom(cards, s, types, g, field[i..]) == AnthemFrom(old(cards), s, types, g, field)
      {
        var h := field[i];
        assert field[i..][1..] == field[i + 1..];
        if !Skips(types, s, h) {
          var thing := AffectOnce(types, cards[h], g);
          cards := cards[h := thing];
        }
        i := i + 1;
      }
    }

    /** `applyAnthems()`: every field card's bonuses reset, then every field
        card with an anthem applies it. */
    method ApplyAnthems()
      requires Valid()
      modifies this`cards
      ensures Valid() && State() == Anthems.ApplyAnthems(old(State()))
    {
      ghost var b := State();
      ResetAll();
      ApplyAll();
      ValidResized(b, cards);
    }

    /** The first loop of `applyAnthems()`. */
    method ResetAll()
      requires Handles(cards, field)
      modifies this`cards
      ensures cards == ResetFrom(old(cards), field)
    {
      var i := 0;
      while i < |field|
        invariant 0 <= i <= |field| && |cards| == |old(cards)|
        invariant ResetFrom(cards, field[i..]) == ResetFrom(old(cards), field)
      {
        var h := field[i];
        assert field[i..][1..] == field[i + 1..];
        cards := cards[h := ResetAnthem(cards[h])];
        i := i + 1;
      }
    }

    /** The second loop of `applyAnthems()`. */
    method ApplyAll()
      requires Handles(cards, field)
      modifies this`cards
      ensures cards == ApplyFrom(old(cards), field, field)
    {
      var i := 0;
      while i < |field|
        invariant 0 <= i <= |field| && |cards| == |old(cards)|
        invariant ApplyFrom(cards, field, field[i..]) == ApplyFrom(old(cards), field, field)
      {
        var s := field[i];
        assert field[i..][1..] == field[i + 1..];
        if HasAnthem(cards[s]) {
          Anthem(s);
        }
        i := i + 1;
      }
    }

    /** The pass after each state-changing command: anthems, then the
        state-based actions. */
    method Settle() returns (err: Option<Error>)
      requires Valid()
      modifies this`cards, this`field, this`hand, this`grave, this`exiled
      ensures Outcome(State(), err) == Zones.Settle(old(State()))
    {
      ApplyAnthems();
      err := StateBased();
    }

    /** `copy(card)`: a token copy appended to the arena and the field. */
    method Copy(h: nat)
      requires Valid() && h < |cards|
      modifies this`cards, this`field
      ensures Valid() && State() == CopyToField(old(State()), h)
    {
      var token := Cards.Copy(cards[h]);
      field := field + [|cards|];
      cards := cards + [token];
    }
  }
}
