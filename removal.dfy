/**
 * The removal commands of play.py (kill, exile, sacrifice, bounce) and the
 * state-based sweep that kills creatures with no toughness and planeswalkers
 * with no loyalty.
 */
module Removals {
  import opened Wrappers
  import opened Lists
  import opened Text
  import opened Cards
  import opened Lookup
  import opened Boards

  datatype Removal = KillIt | ExileIt | SacrificeIt | BounceIt

  /** The zone each removal sends a card to. */
  function RemovalZone(r: Removal): Zone
  {
    match r
    case KillIt => Graveyard
    case ExileIt => Exile
    case SacrificeIt => Graveyard
    case BounceIt => Hand
  }

  /** Only `kill` spares a card, and only an indestructible one. */
  predicate Spared(r: Removal, c: Card)
  {
    r == KillIt && "Indestructible" in Keywords(c)
  }

  /** Where a card that has left the field is put: a token nowhere; a bounced
      card at the end of the hand; the commander nowhere; any other card at
      the front of the graveyard or of exile. */
  function Deposit(b: Board, h: nat, r: Removal): (o: Board)
    requires Valid(b) && h < |b.cards|
    ensures Valid(o) && o.cards == b.cards && o.field == b.field && o.commander == b.commander
  {
    HandlesSnoc(b.cards, b.hand, h);
    HandlesSnoc(b.cards, b.grave, h);
    HandlesSnoc(b.cards, b.exiled, h);
    if IsToken(b.cards[h]) then b
    else if r == BounceIt then b.(hand := b.hand + [h])
    else if IsCommander(b, h) then b
    else if r == ExileIt then b.(exiled := [h] + b.exiled)
    else b.(grave := [h] + b.grave)
  }

  /** Takes one handle out of the field (`field.remove`), the source's
      ValueError when it is not there. */
  function TakeFromField(b: Board, h: nat): (o: Outcome)
    requires Valid(b)
    ensures Valid(o.board) && o.board.cards == b.cards && o.board.grave == b.grave && o.board.commander == b.commander
  {
    HandlesRemove(b.cards, b.field, h);
    if h !in b.field then Failed(b, Uncaught("ValueError"))
    else Done(b.(field := RemoveFirst(b.field, h)))
  }

  /** Taking from the field fails exactly when the card is not there, and
      changes the field only. */
  lemma TakeFromFieldLaws(b: Board, h: nat)
    requires Valid(b)
    ensures var o := TakeFromField(b, h);
            && (o.error.None? <==> h in b.field)
            && o.board.field == (if h in b.field then RemoveFirst(b.field, h) else b.field)
            && o.board.hand == b.hand && o.board.grave == b.grave && o.board.exiled == b.exiled
            && o.board.library == b.library && o.board.deck == b.deck && o.board.commander == b.commander
  {
  }

  /** `kill(card)`, `exile(card)`, `sacrifice(card)` or `bounce(card)` for one
      card: the card moves (which may raise), leaves the field, and is put
      where it belongs. */
  function RemoveCard(b: Board, h: nat, r: Removal): (o: Outcome)
    requires Valid(b) && h < |b.cards|
    ensures Valid(o.board) && |o.board.cards| == |b.cards|
    ensures o.board.cards == b.cards[h := o.board.cards[h]]
    ensures o.error.Some? ==> o.board.field == b.field && o.board.grave == b.grave
    ensures o.board.commander == b.commander
  {
    var c := b.cards[h];
    if Spared(r, c) then Done(b)
    else
      match Move(c, RemovalZone(r))
      case Err(e) => Failed(b, e)
      case Ok(moved) => TakeOut(b, h, moved, r)
  }

  /** What `RemoveCard` does once the card has moved: it leaves the field
      and is put where it belongs, or the removal fails with ValueError when
      the card is not on the field. */
  function TakeOut(b: Board, h: nat, moved: Card, r: Removal): (o: Outcome)
    requires Valid(b) && h < |b.cards|
    ensures o.board.commander == b.commander && (o.error.Some? ==> o.board.grave == b.grave)
  {
    ValidResized(b, b.cards[h := moved]);
    var taken := TakeFromField(b.(cards := b.cards[h := moved]), h);
    if taken.error.Some? then taken
    else Done(Deposit(taken.board, h, r))
  }

  /** Where Deposit puts a card, list by list. */
  lemma DepositLaws(b: Board, h: nat, r: Removal)
    requires Valid(b) && h < |b.cards|
    ensures var d := Deposit(b, h, r);
            && d.library == b.library && d.deck == b.deck && d.commander == b.commander
            && (IsToken(b.cards[h]) ==> d.grave == b.grave && d.exiled == b.exiled && d.hand == b.hand)
            && (IsCommander(b, h) ==> d.grave == b.grave && d.exiled == b.exiled)
            && (!IsToken(b.cards[h]) && r == BounceIt ==> d.hand == b.hand + [h])
            && (r != BounceIt ==> d.hand == b.hand)
            && (!IsToken(b.cards[h]) && !IsCommander(b, h) && r == ExileIt ==> d.exiled == [h] + b.exiled)
            && (r != ExileIt ==> d.exiled == b.exiled)
            && (!IsToken(b.cards[h]) && !IsCommander(b, h) && (r == KillIt || r == SacrificeIt) ==> d.grave == [h] + b.grave)
            && (r == ExileIt || r == BounceIt ==> d.grave == b.grave)
  {
  }

  /** `kill` leaves an indestructible card alone. */
  lemma RemoveCardSpared(b: Board, h: nat, r: Removal)
    requires Valid(b) && h < |b.cards| && Spared(r, b.cards[h])
    ensures RemoveCard(b, h, r) == Done(b)
  {
  }

  /** A removal either fails in the card's own move, before anything changes,
      or finds the card missing from the field after it has moved. */
  lemma RemoveCardFailures(b: Board, h: nat, r: Removal)
    requires Valid(b) && h < |b.cards|
    ensures var o := RemoveCard(b, h, r);
            o.error.Some? ==>
              (o.board == b && o.error.value.ZoneError?) || (h !in b.field && o.error == Some(Uncaught("ValueError")))
  {
    var c := b.cards[h];
    if !Spared(r, c) && Move(c, RemovalZone(r)).Err? {
      MoveRules(c, RemovalZone(r));
    }
  }

  /** A successful removal moves the card, takes it out of the field once and
      puts it where Deposit says; the library and the deck are untouched. */
  lemma RemoveCardLaws(b: Board, h: nat, r: Removal)
    requires Valid(b) && h < |b.cards|
    requires RemoveCard(b, h, r).error.None? && !Spared(r, b.cards[h])
    ensures Move(b.cards[h], RemovalZone(r)).Ok? && h in b.field
    ensures var m := Move(b.cards[h], RemovalZone(r)).value;
            var taken := b.(cards := b.cards[h := m], field := RemoveFirst(b.field, h));
            RemoveCard(b, h, r) == Done(Deposit(taken, h, r))
  {
  }

  // ---------------------------------------------------------------------------
  // Removal of every card of a type
  // ---------------------------------------------------------------------------

  /** The first loop's state: the cards so far, the cards moved, and the
      error that stopped it. */
  datatype Sweep = Sweep(cards: seq<Card>, removed: seq<nat>, error: Option<Error>)

  /** The first loop, from `todo` on: every card of the type that is not
      spared is moved and recorded. It changes only cards. */
  function MoveOfType(cards: seq<Card>, t: CardType, r: Removal, todo: seq<nat>, removed: seq<nat>): (s: Sweep)
    requires Handles(cards, todo) && Handles(cards, removed)
    ensures |s.cards| == |cards| && Handles(s.cards, s.removed)
    decreases |todo|
  {
    if todo == [] then Sweep(cards, removed, None)
    else
      var h := todo[0];
      var c := cards[h];
      if OfType(c, t) && !Spared(r, c) then
        match Move(c, RemovalZone(r))
        case Err(e) => Sweep(cards, removed, Some(e))
        case Ok(m) =>
          HandlesSnoc(cards, removed, h);
          MoveOfType(cards[h := m], t, r, todo[1..], removed + [h])
      else MoveOfType(cards, t, r, todo[1..], removed)
  }

  /** The second loop, from `todo` on: each recorded card leaves the field
      and is put where it belongs. */
  function DepositFrom(b: Board, r: Removal, todo: seq<nat>): (o: Outcome)
    requires Valid(b) && Handles(b.cards, todo)
    ensures Valid(o.board) && o.board.cards == b.cards && o.board.library == b.library
    decreases |todo|
  {
    if todo == [] then Done(b)
    else
      var taken := TakeFromField(b, todo[0]);
      if taken.error.Some? then taken
      else DepositFrom(Deposit(taken.board, todo[0], r), r, todo[1..])
  }

  /** `kill`, `exile`, `sacrifice` or `bounce` of a type name. */
  function RemoveOfType(b: Board, t: CardType, r: Removal): (o: Outcome)
    requires Valid(b)
    ensures Valid(o.board) && |o.board.cards| == |b.cards|
  {
    var s := MoveOfType(b.cards, t, r, b.field, []);
    ValidResized(b, s.cards);
    var moved := b.(cards := s.cards);
    if s.error.Some? then Failed(moved, s.error.value)
    else DepositFrom(moved, r, s.removed)
  }

  /** The removal commands, for a card or a type. */
  function Remove(b: Board, target: Target, r: Removal): (o: Outcome)
    requires Valid(b) && (target.OneCard? ==> target.handle < |b.cards|)
    ensures Valid(o.board) && |o.board.cards| == |b.cards|
  {
    match target
    case OneCard(h) => RemoveCard(b, h, r)
    case AllOfType(t) => RemoveOfType(b, t, r)
  }

  /** The first loop records only cards it was given to look at. */
  lemma {:induction false} MoveOfTypeRecords(cards: seq<Card>, t: CardType, r: Removal, todo: seq<nat>, removed: seq<nat>, h: nat)
    requires Handles(cards, todo) && Handles(cards, removed)
    requires h in MoveOfType(cards, t, r, todo, removed).removed && h !in removed
    ensures h in todo
    decreases |todo|
  {
    var x := todo[0];
    var c := cards[x];
    if OfType(c, t) && !Spared(r, c) {
      match Move(c, RemovalZone(r))
      case Err(e) =>
      case Ok(m) =>
        HandlesSnoc(cards, removed, x);
        if h != x {
          MoveOfTypeRecords(cards[x := m], t, r, todo[1..], removed + [x], h);
        }
    } else {
      MoveOfTypeRecords(cards, t, r, todo[1..], removed, h);
    }
  }

  /** The second loop never puts a token or the commander into the graveyard
      or exile, and nothing outside the recorded cards. */
  lemma {:induction false} DepositFromOnlyRecorded(b: Board, r: Removal, todo: seq<nat>, x: nat)
    requires Valid(b) && Handles(b.cards, todo)
    ensures var o := DepositFrom(b, r, todo);
            (x in o.board.grave ==> x in b.grave || (x in todo && !IsToken(b.cards[x]) && !IsCommander(b, x)))
            && (x in o.board.exiled ==> x in b.exiled || (x in todo && !IsToken(b.cards[x]) && !IsCommander(b, x)))
            && (x in o.board.hand ==> x in b.hand || (x in todo && !IsToken(b.cards[x])))
            && o.board.commander == b.commander
    decreases |todo|
  {
    if todo != [] {
      var h := todo[0];
      var taken := TakeFromField(b, h);
      if taken.error.None? {
        var next := Deposit(taken.board, h, r);
        TakeFromFieldLaws(b, h);
        DepositStepRecorded(taken.board, h, r, x);
        assert Handles(next.cards, todo[1..]);
        DepositFromOnlyRecorded(next, r, todo[1..], x);
        assert DepositFrom(b, r, todo) == DepositFrom(next, r, todo[1..]);
        assert x in todo[1..] ==> x in todo;
      }
    }
  }

  /** What one deposit can add to the graveyard, exile and hand. */
  lemma DepositStepRecorded(b: Board, h: nat, r: Removal, x: nat)
    requires Valid(b) && h < |b.cards|
    ensures var d := Deposit(b, h, r);
            && (x in d.grave ==> x in b.grave || (x == h && !IsToken(b.cards[h]) && !IsCommander(b, h)))
            && (x in d.exiled ==> x in b.exiled || (x == h && !IsToken(b.cards[h]) && !IsCommander(b, h)))
            && (x in d.hand ==> x in b.hand || (x == h && !IsToken(b.cards[h])))
            && d.commander == b.commander
  {
    DepositLaws(b, h, r);
  }

  /** One step of the second loop. */
  lemma DepositFromStep(b: Board, r: Removal, todo: seq<nat>)
    requires Valid(b) && Handles(b.cards, todo) && todo != [] && todo[0] in b.field
    ensures Handles(b.cards, RemoveFirst(b.field, todo[0]))
    ensures var next := Deposit(b.(field := RemoveFirst(b.field, todo[0])), todo[0], r);
            && Valid(next) && Handles(next.cards, todo[1..])
            && next.field == RemoveFirst(b.field, todo[0])
            && DepositFrom(b, r, todo) == DepositFrom(next, r, todo[1..])
  {
    HandlesRemove(b.cards, b.field, todo[0]);
  }

  /** A successful second loop takes each recorded card out of the field once. */
  lemma {:induction false} DepositFromEmptiesField(b: Board, r: Removal, todo: seq<nat>)
    requires Valid(b) && Handles(b.cards, todo)
    ensures var o := DepositFrom(b, r, todo);
            o.error.None? ==> multiset(o.board.field) + multiset(todo) == multiset(b.field)
    decreases |todo|
  {
    if todo != [] && todo[0] in b.field {
      var h := todo[0];
      var rest := todo[1..];
      DepositFromStep(b, r, todo);
      var next := Deposit(b.(field := RemoveFirst(b.field, h)), h, r);
      DepositFromEmptiesField(next, r, rest);
      var o := DepositFrom(next, r, rest);
      MultisetCons(todo);
      RemoveFirstCount(b.field, h);
      if o.error.None? {
        MultisetShift(multiset(o.board.field), multiset(rest), multiset(next.field), multiset(b.field), h);
      }
    }
  }

  /** The list a removal puts its cards in. */
  function Pile(b: Board, r: Removal): seq<nat>
  {
    match r
    case KillIt => b.grave
    case SacrificeIt => b.grave
    case ExileIt => b.exiled
    case BounceIt => b.hand
  }

  /** The handles of `todo` a removal by type picks, in order: those of the
      type that the removal does not spare. */
  function Picked(cards: seq<Card>, t: CardType, r: Removal, todo: seq<nat>): seq<nat>
    requires Handles(cards, todo)
    decreases |todo|
  {
    if todo == [] then []
    else
      var c := cards[todo[0]];
      (if OfType(c, t) && !Spared(r, c) then [todo[0]] else []) + Picked(cards, t, r, todo[1..])
  }

  lemma {:induction false} PickedMembers(cards: seq<Card>, t: CardType, r: Removal, todo: seq<nat>, x: nat)
    requires Handles(cards, todo)
    ensures x in Picked(cards, t, r, todo) <==> x in todo && OfType(cards[x], t) && !Spared(r, cards[x])
    decreases |todo|
  {
    if todo != [] {
      PickedMembers(cards, t, r, todo[1..], x);
      assert todo == [todo[0]] + todo[1..];
    }
  }

  /** Changing a card outside `todo` changes nothing the pick sees. */
  lemma {:induction false} PickedFrame(cards: seq<Card>, t: CardType, r: Removal, todo: seq<nat>, h: nat, m: Card)
    requires Handles(cards, todo) && h < |cards| && h !in todo
    ensures Handles(cards[h := m], todo)
    ensures Picked(cards[h := m], t, r, todo) == Picked(cards, t, r, todo)
    decreases |todo|
  {
    if todo != [] {
      assert h !in todo[1..];
      PickedFrame(cards, t, r, todo[1..], h, m);
    }
  }

  /** The tail of a list without repeats has none either, and lacks the head. */
  lemma DistinctTail(todo: seq<nat>)
    requires Distinct(todo) && todo != []
    ensures Distinct(todo[1..]) && todo[0] !in todo[1..]
  {
    var rest := todo[1..];
    forall i, j | 0 <= i < j < |rest| ensures rest[i] != rest[j] {
      assert rest[i] == todo[i + 1] && rest[j] == todo[j + 1];
    }
    forall k | 0 <= k < |rest| ensures rest[k] != todo[0] {
      assert rest[k] == todo[k + 1];
    }
  }

  /** Without repeats in `todo`, a successful first loop records exactly the
      picked cards. */
  lemma {:induction false} MoveOfTypeRecordsPicked(cards: seq<Card>, t: CardType, r: Removal, todo: seq<nat>, removed: seq<nat>)
    requires Handles(cards, todo) && Handles(cards, removed) && Distinct(todo)
    ensures var s := MoveOfType(cards, t, r, todo, removed);
            s.error.None? ==> s.removed == removed + Picked(cards, t, r, todo)
    decreases |todo|
  {
    if todo != [] {
      var h := todo[0];
      var c := cards[h];
      var rest := todo[1..];
      DistinctTail(todo);
      if OfType(c, t) && !Spared(r, c) {
        match Move(c, RemovalZone(r))
        case Err(e) =>
        case Ok(m) =>
          HandlesSnoc(cards, removed, h);
          PickedFrame(cards, t, r, rest, h, m);
          assert MoveOfType(cards, t, r, todo, removed) == MoveOfType(cards[h := m], t, r, rest, removed + [h]);
          assert Picked(cards, t, r, todo) == [h] + Picked(cards, t, r, rest);
          MoveOfTypeRecordsPicked(cards[h := m], t, r, rest, removed + [h]);
          SnocAssoc(removed, h, Picked(cards, t, r, rest));
      } else {
        assert MoveOfType(cards, t, r, todo, removed) == MoveOfType(cards, t, r, rest, removed);
        assert Picked(cards, t, r, todo) == Picked(cards, t, r, rest);
        MoveOfTypeRecordsPicked(cards, t, r, rest, removed);
      }
    }
  }

  /** Without repeats in `todo`, the first loop moves each picked card once
      when it succeeds, and leaves a card it does not pick as it was,
      whatever happens. */
  lemma {:induction false} MoveOfTypeMoves(cards: seq<Card>, t: CardType, r: Removal, todo: seq<nat>, removed: seq<nat>, x: nat)
    requires Handles(cards, todo) && Handles(cards, removed) && Distinct(todo) && x < |cards|
    ensures var s := MoveOfType(cards, t, r, todo, removed);
            && (x !in Picked(cards, t, r, todo) ==> s.cards[x] == cards[x])
            && (s.error.None? && x in Picked(cards, t, r, todo) ==>
                  Move(cards[x], RemovalZone(r)).Ok? && s.cards[x] == Move(cards[x], RemovalZone(r)).value)
    decreases |todo|
  {
    if todo != [] {
      var h := todo[0];
      var c := cards[h];
      var rest := todo[1..];
      DistinctTail(todo);
      PickedMembers(cards, t, r, rest, x);
      if OfType(c, t) && !Spared(r, c) {
        match Move(c, RemovalZone(r))
        case Err(e) =>
        case Ok(m) =>
          HandlesSnoc(cards, removed, h);
          PickedFrame(cards, t, r, rest, h, m);
          MoveOfTypeMoves(cards[h := m], t, r, rest, removed + [h], x);
      } else {
        MoveOfTypeMoves(cards, t, r, rest, removed, x);
      }
    }
  }

  /** A successful second loop puts each recorded card that is still no token
      into the removal's list (the commander only into the hand), and keeps
      every card already there. */
  lemma {:induction false} DepositFromPlaces(b: Board, r: Removal, todo: seq<nat>, x: nat)
    requires Valid(b) && Handles(b.cards, todo) && x < |b.cards|
    ensures var o := DepositFrom(b, r, todo);
            o.error.None? && x in Pile(b, r) ==> x in Pile(o.board, r)
    ensures var o := DepositFrom(b, r, todo);
            o.error.None? && x in todo && !IsToken(b.cards[x]) && (r == BounceIt || !IsCommander(b, x)) ==>
              x in Pile(o.board, r)
    decreases |todo|
  {
    if todo != [] {
      var h := todo[0];
      var taken := TakeFromField(b, h);
      if taken.error.None? {
        var next := Deposit(taken.board, h, r);
        assert taken.board == b.(field := RemoveFirst(b.field, h));
        DepositPile(taken.board, h, r, x);
        DepositFromPlaces(next, r, todo[1..], x);
        assert x in todo ==> x == h || x in todo[1..];
      }
    }
  }

  /** Putting one card away keeps the pile's cards, and adds that card unless
      it is a token, or the commander when it is not bounced. */
  lemma DepositPile(b: Board, h: nat, r: Removal, x: nat)
    requires Valid(b) && h < |b.cards|
    ensures x in Pile(b, r) ==> x in Pile(Deposit(b, h, r), r)
    ensures !IsToken(b.cards[h]) && (r == BounceIt || !IsCommander(b, h)) ==> h in Pile(Deposit(b, h, r), r)
  {
  }

  /** The two loops of a removal by type, once the first has raised nothing. */
  lemma RemoveOfTypeUnfolds(b: Board, t: CardType, r: Removal)
    requires Valid(b) && Distinct(b.field)
    ensures var s := MoveOfType(b.cards, t, r, b.field, []);
            s.error.None? ==>
              && Valid(b.(cards := s.cards)) && Handles(s.cards, Picked(b.cards, t, r, b.field))
              && RemoveOfType(b, t, r) == DepositFrom(b.(cards := s.cards), r, Picked(b.cards, t, r, b.field))
    ensures MoveOfType(b.cards, t, r, b.field, []).error.Some? ==> RemoveOfType(b, t, r).error.Some?
  {
    var s := MoveOfType(b.cards, t, r, b.field, []);
    MoveOfTypeRecordsPicked(b.cards, t, r, b.field, []);
    ValidResized(b, s.cards);
    if s.error.None? {
      var picked := Picked(b.cards, t, r, b.field);
      assert s.removed == [] + picked == picked;
      assert RemoveOfType(b, t, r) == DepositFrom(b.(cards := s.cards), r, s.removed);
    }
  }

  /** A successful removal by type over a field without repeats takes a card
      off the field exactly when it is of the type and not spared. */
  lemma RemoveOfTypeSweeps(b: Board, t: CardType, r: Removal, h: nat)
    requires Valid(b) && Distinct(b.field) && h < |b.cards|
    ensures var o := RemoveOfType(b, t, r);
            o.error.None? ==>
              (h in o.board.field <==> h in b.field && !(OfType(b.cards[h], t) && !Spared(r, b.cards[h])))
  {
    var s := MoveOfType(b.cards, t, r, b.field, []);
    if s.error.None? {
      RemoveOfTypeUnfolds(b, t, r);
      DistinctOnce(b.field, h);
      DepositFromLeaves(b.(cards := s.cards), r, Picked(b.cards, t, r, b.field), h);
      PickedMembers(b.cards, t, r, b.field, h);
    }
  }

  /** When a card is on the field at most once, a successful second loop
      leaves it there exactly when it was not recorded. */
  lemma DepositFromLeaves(b: Board, r: Removal, todo: seq<nat>, h: nat)
    requires Valid(b) && Handles(b.cards, todo) && multiset(b.field)[h] <= 1
    ensures var o := DepositFrom(b, r, todo);
            o.error.None? ==> (h in o.board.field <==> h in b.field && h !in todo)
  {
    var o := DepositFrom(b, r, todo);
    DepositFromEmptiesField(b, r, todo);
    if o.error.None? {
      LeftAfterTaking(o.board.field, todo, b.field, h);
    }
  }

  /** After a successful removal by type, each card it took is moved to the
      removal's zone and, unless it is a token afterwards, is in the
      removal's list (the commander only when bounced). */
  lemma RemoveOfTypePlaces(b: Board, t: CardType, r: Removal, h: nat)
    requires Valid(b) && Distinct(b.field) && h < |b.cards|
    ensures var o := RemoveOfType(b, t, r);
            o.error.None? && h in b.field && OfType(b.cards[h], t) && !Spared(r, b.cards[h]) ==>
              && Move(b.cards[h], RemovalZone(r)).Ok?
              && o.board.cards[h] == Move(b.cards[h], RemovalZone(r)).value
              && (!IsToken(o.board.cards[h]) && (r == BounceIt || !IsCommander(b, h)) ==> h in Pile(o.board, r))
  {
    var s := MoveOfType(b.cards, t, r, b.field, []);
    RemoveOfTypeUnfolds(b, t, r);
    if s.error.None? {
      var picked: seq<nat> := Picked(b.cards, t, r, b.field);
      MoveOfTypeMoves(b.cards, t, r, b.field, [], h);
      PickedMembers(b.cards, t, r, b.field, h);
      if h in picked {
        SweptLands(b, b.(cards := s.cards), r, picked, h);
      }
    }
  }

  /** A picked card that is not a token, nor the commander unless bounced,
      ends in the pile once the second loop completes. */
  lemma SweptLands(b: Board, moved: Board, r: Removal, picked: seq<nat>, h: nat)
    requires Valid(moved) && moved == b.(cards := moved.cards)
    requires Handles(moved.cards, picked) && h in picked
    ensures var o := DepositFrom(moved, r, picked);
            && o.board.cards == moved.cards
            && (o.error.None? && !IsToken(moved.cards[h]) && (r == BounceIt || !IsCommander(b, h)) ==> h in Pile(o.board, r))
  {
    DepositFromPlaces(moved, r, picked, h);
  }

  /** A removal by type leaves every card it does not take as it was, even
      when it fails. */
  lemma RemoveOfTypeFrame(b: Board, t: CardType, r: Removal, h: nat)
    requires Valid(b) && Distinct(b.field) && h < |b.cards|
    requires !(h in b.field && OfType(b.cards[h], t) && !Spared(r, b.cards[h]))
    ensures RemoveOfType(b, t, r).board.cards[h] == b.cards[h]
  {
    MoveOfTypeMoves(b.cards, t, r, b.field, [], h);
    PickedMembers(b.cards, t, r, b.field, h);
  }

  /** What is left of a list without repeats once some of its members are
      taken out. */
  lemma LeftAfterTaking(left: seq<nat>, taken: seq<nat>, f: seq<nat>, h: nat)
    requires multiset(left) + multiset(taken) == multiset(f) && multiset(f)[h] <= 1
    ensures h in left <==> h in f && h !in taken
  {
    assert h in left <==> multiset(left)[h] > 0;
    assert h in taken <==> multiset(taken)[h] > 0;
    assert h in f <==> multiset(f)[h] > 0;
  }

  lemma MultisetCons(s: seq<nat>)
    requires s != []
    ensures multiset(s) == multiset{s[0]} + multiset(s[1..])
  {
    assert s == [s[0]] + s[1..];
  }

  lemma MultisetShift(a: multiset<nat>, rest: multiset<nat>, n: multiset<nat>, f: multiset<nat>, h: nat)
    requires a + rest == n && f == n + multiset{h}
    ensures a + (multiset{h} + rest) == f
  {
  }

  lemma RemoveFirstCount(s: seq<nat>, x: nat)
    requires x in s
    ensures multiset(s) == multiset(RemoveFirst(s, x)) + multiset{x}
  {
    RemoveFirstMultiset(s, x);
    assert multiset(s)[x] > 0;
  }

  // ---------------------------------------------------------------------------
  // State-based actions (play.py:789-799)
  // ---------------------------------------------------------------------------

  /** A creature with toughness 0 must die. */
  predicate DeadCreature(c: Card)
  {
    Contains(TypeLine(c), "Creature") && Toughness(c) == Ok(Some(0))
  }

  /** A planeswalker with no counters must die. */
  predicate DeadPlaneswalker(c: Card)
  {
    Contains(TypeLine(c), "Planeswalker") && Counters(c) == 0
  }

  /** The cards the sweep collects from `zone`, in order; a card that is both
      is collected twice. */
  function Doomed(cards: seq<Card>, zone: seq<nat>): seq<nat>
    requires Handles(cards, zone)
  {
    if zone == [] then []
    else
      var h := zone[|zone| - 1];
      Doomed(cards, zone[..|zone| - 1])
      + (if DeadCreature(cards[h]) then [h] else [])
      + (if DeadPlaneswalker(cards[h]) then [h] else [])
  }

  lemma {:induction false} DoomedMembers(cards: seq<Card>, zone: seq<nat>, h: nat)
    requires Handles(cards, zone)
    ensures Handles(cards, Doomed(cards, zone))
    ensures h in Doomed(cards, zone) <==> h in zone && (DeadCreature(cards[h]) || DeadPlaneswalker(cards[h]))
  {
    if zone != [] {
      var init := zone[..|zone| - 1];
      DoomedMembers(cards, init, h);
      assert zone == init + [zone[|zone| - 1]];
    }
  }

  /** Kills each card of `hs` in turn, stopping at the first error. */
  function KillAll(b: Board, hs: seq<nat>): (o: Outcome)
    requires Valid(b) && Handles(b.cards, hs)
    ensures Valid(o.board) && |o.board.cards| == |b.cards|
    decreases |hs|
  {
    if hs == [] then Done(b)
    else
      var o := RemoveCard(b, hs[0], KillIt);
      if o.error.Some? then o else KillAll(o.board, hs[1..])
  }

  /** `stateBased()`. */
  function StateBased(b: Board): (o: Outcome)
    requires Valid(b)
    ensures Valid(o.board) && |o.board.cards| == |b.cards|
  {
    DoomedMembers(b.cards, b.field, 0);
    KillAll(b, Doomed(b.cards, b.field))
  }

  /** Moving a card never changes its keywords or its commander and emblem status. */
  lemma MoveKeepsIdentity(c: Card, z: Zone)
    requires Move(c, z).Ok?
    ensures Keywords(Move(c, z).value) == Keywords(c)
    ensures Move(c, z).value.commander == c.commander
    ensures Move(c, z).value.face == c.face
  {
    var d := c.(zone := Destination(c, z));
    assert Keywords(d) == Keywords(c);
    if c.zone == Battlefield && z != Battlefield {
      LeaveResets(d);
      assert Move(c, z).value == Leave(d);
    } else {
      assert Move(c, z).value == d;
    }
  }

  /** The zone a killed card ends in. */
  function KillZone(c: Card): Zone
  {
    if c.commander then Command else Graveyard
  }

  /** One kill changes at most the card killed; the field and the card
      change only when it succeeds. */
  lemma KillStep(b: Board, x: nat)
    requires Valid(b) && x < |b.cards|
    ensures var o := RemoveCard(b, x, KillIt);
            forall h: nat :: h < |b.cards| && h != x ==> o.board.cards[h] == b.cards[h]
    ensures var o := RemoveCard(b, x, KillIt);
            Spared(KillIt, b.cards[x]) ==> o == Done(b)
    ensures var o := RemoveCard(b, x, KillIt);
            o.error.None? && !Spared(KillIt, b.cards[x]) ==>
              && o.board.field == RemoveFirst(b.field, x)
              && o.board.cards[x].zone == KillZone(b.cards[x])
              && Keywords(o.board.cards[x]) == Keywords(b.cards[x])
              && o.board.cards[x].commander == b.cards[x].commander
    ensures var o := RemoveCard(b, x, KillIt);
            o.error.Some? ==> o.board.field == b.field
  {
    var c := b.cards[x];
    var o := RemoveCard(b, x, KillIt);
    if !Spared(KillIt, c) && o.error.None? {
      RemoveCardLaws(b, x, KillIt);
      MoveKeepsIdentity(c, Graveyard);
      MoveRules(c, Graveyard);
    }
  }

  /** The kills sweep changes no card outside the list, and no indestructible one. */
  lemma {:induction false} KillAllFrame(b: Board, hs: seq<nat>, h: nat)
    requires Valid(b) && Handles(b.cards, hs) && h < |b.cards|
    requires h !in hs || Spared(KillIt, b.cards[h])
    ensures KillAll(b, hs).board.cards[h] == b.cards[h]
    decreases |hs|
  {
    if hs != [] {
      var o := RemoveCard(b, hs[0], KillIt);
      KillStep(b, hs[0]);
      if o.error.None? {
        assert h !in hs[1..] || Spared(KillIt, o.board.cards[h]);
        KillAllFrame(o.board, hs[1..], h);
      }
    }
  }

  /** An indestructible card on the field stays on the field. */
  lemma {:induction false} KillAllKeepsSpared(b: Board, hs: seq<nat>, h: nat)
    requires Valid(b) && Handles(b.cards, hs) && h < |b.cards|
    requires h in b.field && Spared(KillIt, b.cards[h])
    ensures h in KillAll(b, hs).board.field
    decreases |hs|
  {
    if hs != [] {
      var x := hs[0];
      var o := RemoveCard(b, x, KillIt);
      KillStep(b, x);
      if o.error.None? {
        if h != x {
          RemoveFirstKeepsOthers(b.field, x, h);
        }
        KillAllKeepsSpared(o.board, hs[1..], h);
      }
    }
  }

  /** After a successful kills sweep, every listed card that is not
      indestructible is in the graveyard (the commander in the command zone). */
  lemma {:induction false} KillAllZones(b: Board, hs: seq<nat>, h: nat)
    requires Valid(b) && Handles(b.cards, hs) && h < |b.cards|
    requires h in hs && !Spared(KillIt, b.cards[h])
    ensures KillAll(b, hs).error.None? ==> KillAll(b, hs).board.cards[h].zone == KillZone(b.cards[h])
    decreases |hs|
  {
    var x := hs[0];
    var o := RemoveCard(b, x, KillIt);
    KillStep(b, x);
    if o.error.None? {
      assert o.board.cards[h].commander == b.cards[h].commander;
      assert !Spared(KillIt, o.board.cards[h]);
      if h in hs[1..] {
        KillAllZones(o.board, hs[1..], h);
      } else {
        KillAllFrame(o.board, hs[1..], h);
      }
    }
  }

  /** One removal keeps everything already in the graveyard. */
  lemma RemoveCardKeepsGrave(b: Board, x: nat, r: Removal, y: nat)
    requires Valid(b) && x < |b.cards| && y in b.grave
    ensures y in RemoveCard(b, x, r).board.grave
  {
    var c := b.cards[x];
    if !Spared(r, c) && Move(c, RemovalZone(r)).Ok? {
      var moved := Move(c, RemovalZone(r)).value;
      ValidResized(b, b.cards[x := moved]);
      var taken := TakeFromField(b.(cards := b.cards[x := moved]), x);
      if taken.error.None? {
        assert RemoveCard(b, x, r).board == Deposit(taken.board, x, r);
        DepositLaws(taken.board, x, r);
      }
    }
  }

  /** One removal takes nothing but its own card off the field. */
  lemma RemoveCardKeepsField(b: Board, x: nat, r: Removal, y: nat)
    requires Valid(b) && x < |b.cards| && y != x
    ensures multiset(RemoveCard(b, x, r).board.field)[y] == multiset(b.field)[y]
  {
    if RemoveCard(b, x, r).error.None? && !Spared(r, b.cards[x]) {
      RemoveCardLaws(b, x, r);
      RemoveFirstMultiset(b.field, x);
      assert (multiset(b.field) - multiset{x})[y] == multiset(b.field)[y];
    }
  }

  /** A card already off the field is untouched by a successful kills sweep:
      it stays off the field and, once in the graveyard, stays there. */
  lemma {:induction false} KillAllSettles(b: Board, hs: seq<nat>, h: nat)
    requires Valid(b) && Handles(b.cards, hs) && h < |b.cards| && h !in b.field
    ensures var o := KillAll(b, hs);
            o.error.None? ==>
              && h !in o.board.field && o.board.cards[h] == b.cards[h]
              && (h in b.grave ==> h in o.board.grave)
    decreases |hs|
  {
    if hs != [] {
      var x := hs[0];
      var o := RemoveCard(b, x, KillIt);
      KillStep(b, x);
      if x != h {
        RemoveCardKeepsField(b, x, KillIt, h);
      }
      if h in b.grave {
        RemoveCardKeepsGrave(b, x, KillIt, h);
      }
      if o.error.None? {
        if x == h && !Spared(KillIt, b.cards[h]) {
          RemoveCardLaws(b, x, KillIt);
          assert false;
        }
        assert h !in o.board.field by {
          if x != h {
            assert multiset(o.board.field)[h] == multiset(b.field)[h] == 0;
          }
        }
        KillAllSettles(o.board, hs[1..], h);
      }
    }
  }

  /** After a successful kills sweep, a listed card that is not
      indestructible and was on the field at most once has left the field,
      and unless it is a token afterwards or the commander it is in the
      graveyard. */
  lemma {:induction false} KillAllBuries(b: Board, hs: seq<nat>, h: nat)
    requires Valid(b) && Handles(b.cards, hs) && h < |b.cards|
    requires h in hs && !Spared(KillIt, b.cards[h]) && multiset(b.field)[h] <= 1
    ensures var o := KillAll(b, hs);
            o.error.None? ==>
              && h !in o.board.field
              && (!IsToken(o.board.cards[h]) && !IsCommander(b, h) ==> h in o.board.grave)
    decreases |hs|
  {
    var x := hs[0];
    var o := RemoveCard(b, x, KillIt);
    KillStep(b, x);
    if o.error.None? {
      if x == h {
        RemoveCardLaws(b, h, KillIt);
        var m := Move(b.cards[h], Graveyard).value;
        var taken := b.(cards := b.cards[h := m], field := RemoveFirst(b.field, h));
        DepositLaws(taken, h, KillIt);
        RemoveFirstMultiset(b.field, h);
        assert h !in o.board.field by {
          assert multiset(o.board.field)[h] == 0;
        }
        KillAllSettles(o.board, hs[1..], h);
      } else {
        RemoveCardKeepsField(b, x, KillIt, h);
        assert !Spared(KillIt, o.board.cards[h]);
        KillAllBuries(o.board, hs[1..], h);
      }
    }
  }

  /** Removing one value keeps every other value present. */
  lemma {:induction false} RemoveFirstKeepsOthers(s: seq<nat>, x: nat, y: nat)
    requires y in s && y != x
    ensures y in RemoveFirst(s, x)
  {
    RemoveFirstMultiset(s, x);
    assert multiset(s)[y] > 0;
    assert (multiset(s) - multiset{x})[y] == multiset(s)[y];
  }

  /** A successful state-based sweep over a field without repeats takes each
      dead creature or planeswalker that is not indestructible off the field
      and, unless it is a token afterwards or the commander, puts it in the
      graveyard. */
  lemma StateBasedBuries(b: Board, h: nat)
    requires Valid(b) && Distinct(b.field) && h < |b.cards|
    requires h in b.field && (DeadCreature(b.cards[h]) || DeadPlaneswalker(b.cards[h]))
    requires "Indestructible" !in Keywords(b.cards[h])
    ensures var o := StateBased(b);
            o.error.None? ==>
              && h !in o.board.field
              && (!IsToken(o.board.cards[h]) && !IsCommander(b, h) ==> h in o.board.grave)
  {
    DoomedMembers(b.cards, b.field, h);
    DistinctOnce(b.field, h);
    KillAllBuries(b, Doomed(b.cards, b.field), h);
  }

  /** The sweep collects exactly the dead creatures and planeswalkers of the
      field; when it raises nothing, each of them that is not indestructible
      has gone to the graveyard (the commander to the command zone), and each
      indestructible one is untouched and still on the field. */
  lemma StateBasedKills(b: Board, h: nat)
    requires Valid(b) && h < |b.cards|
    ensures h in Doomed(b.cards, b.field) <==> h in b.field && (DeadCreature(b.cards[h]) || DeadPlaneswalker(b.cards[h]))
    ensures var o := StateBased(b);
            o.error.None? && h in b.field && (DeadCreature(b.cards[h]) || DeadPlaneswalker(b.cards[h]))
            && "Indestructible" !in Keywords(b.cards[h]) ==>
              o.board.cards[h].zone == KillZone(b.cards[h])
    ensures var o := StateBased(b);
            h in b.field && "Indestructible" in Keywords(b.cards[h]) ==> h in o.board.field && o.board.cards[h] == b.cards[h]
  {
    DoomedMembers(b.cards, b.field, h);
    var hs := Doomed(b.cards, b.field);
    if h in hs && "Indestructible" !in Keywords(b.cards[h]) {
      KillAllZones(b, hs, h);
    }
    if h in b.field && "Indestructible" in Keywords(b.cards[h]) {
      KillAllFrame(b, hs, h);
      KillAllKeepsSpared(b, hs, h);
    }
  }
}
