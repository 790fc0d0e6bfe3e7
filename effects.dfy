/**
 * The commands of play.py that change cards in place without moving them:
 * tap, untap, counters, power, toughness and plusone on one card or on every
 * field card of a type, and the per-turn passes endTurn, untapAll and the
 * upkeep loop of nextTurn, plus copy. Each pass walks the field in order and
 * calls the card's own mutator, so a handle listed twice is reached twice.
 */
module Effects {
  import opened Wrappers
  import opened Lists
  import opened Text
  import opened Cards
  import opened Lookup
  import opened Boards

  /** What a command does to each card it reaches. */
  datatype CardOp =
    | TapIt
    | UntapIt
    | AddCounters(n: int)
    | AddPower(n: int)
    | AddToughness(n: int)
    | AddPlusOne(n: int)
    | EndOfTurn
    | Upkeep
    | UntapStep

  /** The card says it does not untap during the untap step (play.py:1309). */
  predicate StaysTapped(c: Card)
  {
    Contains(RulesTextOf(c), Name(c) + " doesn't untap during your untap step")
  }

  /** The card mutator each command calls. */
  function ApplyOp(op: CardOp, c: Card): Card
  {
    match op
    case TapIt => Tap(c)
    case UntapIt => Untap(c)
    case AddCounters(n) => ModCounters(c, n)
    case AddPower(n) => ModPower(c, n)
    case AddToughness(n) => ModToughness(c, n)
    case AddPlusOne(n) => ModPlusOne(c, n)
    case EndOfTurn => EndTurn(c)
    case Upkeep => NextTurn(c)
    case UntapStep => UntapUnlessHeld(c)
  }

  /** The untap step's test for one card. */
  function UntapUnlessHeld(c: Card): Card
  {
    if StaysTapped(c) then c else Untap(c)
  }

  /** `op` applied k times. */
  function Iterate(op: CardOp, c: Card, k: nat): Card
    decreases k
  {
    if k == 0 then c else Iterate(op, ApplyOp(op, c), k - 1)
  }

  /** None of these mutators changes the face shown, the zone or the
      commander flag, so none changes whether a type test selects the card. */
  lemma ApplyOpKeepsIdentity(op: CardOp, c: Card)
    ensures Shown(ApplyOp(op, c)) == Shown(c)
    ensures ApplyOp(op, c).zone == c.zone && ApplyOp(op, c).commander == c.commander
  {
    if op.UntapStep? {
      UntapStepKeepsIdentity(c);
    } else {
      MutatorKeepsShown(op, c);
      MutatorKeepsZone(op, c);
      MutatorKeepsCommander(op, c);
    }
  }

  lemma MutatorKeepsShown(op: CardOp, c: Card)
    requires !op.UntapStep?
    ensures Shown(ApplyOp(op, c)) == Shown(c)
  {
    match op
    case TapIt => assert Shown(Tap(c)) == Shown(c);
    case UntapIt => assert Shown(Untap(c)) == Shown(c);
    case AddCounters(n) => assert Shown(ModCounters(c, n)) == Shown(c);
    case AddPower(n) => assert Shown(ModPower(c, n)) == Shown(c);
    case AddToughness(n) => assert Shown(ModToughness(c, n)) == Shown(c);
    case AddPlusOne(n) => assert Shown(ModPlusOne(c, n)) == Shown(c);
    case EndOfTurn => assert Shown(EndTurn(c)) == Shown(c);
    case Upkeep => assert Shown(NextTurn(c)) == Shown(c);
  }

  lemma MutatorKeepsZone(op: CardOp, c: Card)
    requires !op.UntapStep?
    ensures ApplyOp(op, c).zone == c.zone
  {
    match op
    case TapIt => assert Tap(c).zone == c.zone;
    case UntapIt => assert Untap(c).zone == c.zone;
    case AddCounters(n) => assert ModCounters(c, n).zone == c.zone;
    case AddPower(n) => assert ModPower(c, n).zone == c.zone;
    case AddToughness(n) => assert ModToughness(c, n).zone == c.zone;
    case AddPlusOne(n) => assert ModPlusOne(c, n).zone == c.zone;
    case EndOfTurn => assert EndTurn(c).zone == c.zone;
    case Upkeep => assert NextTurn(c).zone == c.zone;
  }

  lemma MutatorKeepsCommander(op: CardOp, c: Card)
    requires !op.UntapStep?
    ensures ApplyOp(op, c).commander == c.commander
  {
    match op
    case TapIt => assert Tap(c).commander == c.commander;
    case UntapIt => assert Untap(c).commander == c.commander;
    case AddCounters(n) => assert ModCounters(c, n).commander == c.commander;
    case AddPower(n) => assert ModPower(c, n).commander == c.commander;
    case AddToughness(n) => assert ModToughness(c, n).commander == c.commander;
    case AddPlusOne(n) => assert ModPlusOne(c, n).commander == c.commander;
    case EndOfTurn => assert EndTurn(c).commander == c.commander;
    case Upkeep => assert NextTurn(c).commander == c.commander;
  }

  lemma UntapStepKeepsIdentity(c: Card)
    ensures Shown(ApplyOp(UntapStep, c)) == Shown(c)
    ensures ApplyOp(UntapStep, c).zone == c.zone && ApplyOp(UntapStep, c).commander == c.commander
  {
  }

  lemma {:induction false} IterateKeepsIdentity(op: CardOp, c: Card, k: nat)
    ensures Shown(Iterate(op, c, k)) == Shown(c)
    ensures Iterate(op, c, k).zone == c.zone
    decreases k
  {
    if k > 0 {
      ApplyOpKeepsIdentity(op, c);
      IterateKeepsIdentity(op, ApplyOp(op, c), k - 1);
    }
  }

  /** Whether a pass reaches a card: every field card, or those of one type. */
  predicate Selected(reach: Option<CardType>, c: Card)
  {
    reach.None? || OfType(c, reach.value)
  }

  /** `for thing in field: if type in thing.type(): thing.op()`, on the arena. */
  function ForField(cards: seq<Card>, todo: seq<nat>, reach: Option<CardType>, op: CardOp): (r: seq<Card>)
    requires Handles(cards, todo)
    ensures |r| == |cards|
    decreases |todo|
  {
    if todo == [] then cards
    else
      var h := todo[0];
      var next := if Selected(reach, cards[h]) then cards[h := ApplyOp(op, cards[h])] else cards;
      ForField(next, todo[1..], reach, op)
  }

  /** A field pass applies the mutator to each selected card once per time
      its handle occurs in the list, and to nothing else. */
  lemma {:induction false} ForFieldCounts(cards: seq<Card>, todo: seq<nat>, reach: Option<CardType>, op: CardOp, h: nat)
    requires Handles(cards, todo) && h < |cards|
    ensures ForField(cards, todo, reach, op)[h]
            == if Selected(reach, cards[h]) then Iterate(op, cards[h], multiset(todo)[h]) else cards[h]
    decreases |todo|
  {
    if todo != [] {
      var x: nat := todo[0];
      var rest: seq<nat> := todo[1..];
      CountCons(todo, h);
      var next := if Selected(reach, cards[x]) then cards[x := ApplyOp(op, cards[x])] else cards;
      ForFieldCounts(next, rest, reach, op, h);
      if x == h && Selected(reach, cards[x]) {
        ApplyOpKeepsIdentity(op, cards[h]);
        assert Selected(reach, next[h]);
      }
    }
  }

  /** On a field without repeated handles each selected card is changed once. */
  lemma ForFieldOnce(cards: seq<Card>, todo: seq<nat>, reach: Option<CardType>, op: CardOp, h: nat)
    requires Handles(cards, todo) && Distinct(todo) && h < |cards|
    ensures ForField(cards, todo, reach, op)[h]
            == if h in todo && Selected(reach, cards[h]) then ApplyOp(op, cards[h]) else cards[h]
  {
    ForFieldCounts(cards, todo, reach, op, h);
    DistinctOnce(todo, h);
  }

  /** tap, untap, counters, power, toughness or plusone on a card or a type. */
  function Adjust(b: Board, target: Target, op: CardOp): (r: Board)
    requires Valid(b) && (target.OneCard? ==> target.handle < |b.cards|)
    ensures Valid(r) && |r.cards| == |b.cards|
  {
    match target
    case OneCard(h) => SetCard(b, h, ApplyOp(op, b.cards[h]))
    case AllOfType(t) => b.(cards := ForField(b.cards, b.field, Some(t), op))
  }

  /** A command changes only the arena: one card, or the selected field
      cards, each as many times as it is listed on the field. */
  lemma AdjustEffect(b: Board, target: Target, op: CardOp, h: nat)
    requires Valid(b) && (target.OneCard? ==> target.handle < |b.cards|) && h < |b.cards|
    ensures Adjust(b, target, op).(cards := b.cards) == b
    ensures target.OneCard? ==>
              Adjust(b, target, op).cards[h] == if h == target.handle then ApplyOp(op, b.cards[h]) else b.cards[h]
    ensures target.AllOfType? ==>
              Adjust(b, target, op).cards[h]
              == if OfType(b.cards[h], target.kind) then Iterate(op, b.cards[h], multiset(b.field)[h]) else b.cards[h]
  {
    CardsOnly(b, Adjust(b, target, op).cards);
    if target.AllOfType? {
      ForFieldCounts(b.cards, b.field, Some(target.kind), op, h);
    }
  }

  /** A pass that replaces the arena changes nothing else. */
  lemma CardsOnly(b: Board, cards: seq<Card>)
    ensures b.(cards := cards).(cards := b.cards) == b
  {
  }

  /** `endTurn()`: every field card's end-of-turn reset. */
  function EndTurnAll(b: Board): (r: Board)
    requires Valid(b)
    ensures Valid(r)
  {
    b.(cards := ForField(b.cards, b.field, None, EndOfTurn))
  }

  /** `untapAll()`: every field card untaps unless its text says it does not. */
  function UntapAll(b: Board): (r: Board)
    requires Valid(b)
    ensures Valid(r)
  {
    b.(cards := ForField(b.cards, b.field, None, UntapStep))
  }

  /** The upkeep loop of `nextTurn()`: field creatures lose summoning sickness. */
  function UpkeepAll(b: Board): (r: Board)
    requires Valid(b)
    ensures Valid(r)
  {
    b.(cards := ForField(b.cards, b.field, None, Upkeep))
  }

  /** The end-of-turn reset is idempotent, so a field card reached any
      positive number of times ends with no temporary modifiers, its
      counters as before. */
  lemma {:induction false} IterateEndTurn(c: Card, k: nat)
    requires k > 0
    ensures Iterate(EndOfTurn, c, k) == EndTurn(c)
    decreases k
  {
    EndTurnKeepsCounters(c);
    if k > 1 {
      IterateEndTurn(EndTurn(c), k - 1);
    }
  }

  lemma EndTurnAllEffect(b: Board, h: nat)
    requires Valid(b) && h < |b.cards|
    ensures EndTurnAll(b).(cards := b.cards) == b
    ensures EndTurnAll(b).cards[h] == if h in b.field then EndTurn(b.cards[h]) else b.cards[h]
    ensures Counters(EndTurnAll(b).cards[h]) == Counters(b.cards[h])
  {
    ForFieldCounts(b.cards, b.field, None, EndOfTurn, h);
    CardsOnly(b, ForField(b.cards, b.field, None, EndOfTurn));
    if h in b.field {
      IterateEndTurn(b.cards[h], multiset(b.field)[h]);
    }
    EndTurnKeepsCounters(b.cards[h]);
  }

  /** The untap step is idempotent too: a field card ends untapped unless it
      says it stays tapped. */
  lemma {:induction false} IterateUntapStep(c: Card, k: nat)
    requires k > 0
    ensures Iterate(UntapStep, c, k) == if StaysTapped(c) then c else Untap(c)
    decreases k
  {
    if k > 1 {
      var d := ApplyOp(UntapStep, c);
      ApplyOpKeepsIdentity(UntapStep, c);
      assert StaysTapped(d) == StaysTapped(c);
      IterateUntapStep(d, k - 1);
    }
  }

  lemma UntapAllEffect(b: Board, h: nat)
    requires Valid(b) && h < |b.cards|
    ensures UntapAll(b).(cards := b.cards) == b
    ensures UntapAll(b).cards[h]
            == if h in b.field && !StaysTapped(b.cards[h]) then Untap(b.cards[h]) else b.cards[h]
  {
    ForFieldCounts(b.cards, b.field, None, UntapStep, h);
    CardsOnly(b, ForField(b.cards, b.field, None, UntapStep));
    if h in b.field {
      IterateUntapStep(b.cards[h], multiset(b.field)[h]);
    }
  }

  /** The upkeep: every creature on the field is no longer summoning sick. */
  lemma {:induction false} IterateUpkeep(c: Card, k: nat)
    requires k > 0
    ensures Iterate(Upkeep, c, k) == NextTurn(c)
    decreases k
  {
    if k > 1 {
      IterateUpkeep(NextTurn(c), k - 1);
    }
  }

  lemma UpkeepAllEffect(b: Board, h: nat)
    requires Valid(b) && h < |b.cards|
    ensures UpkeepAll(b).(cards := b.cards) == b
    ensures UpkeepAll(b).cards[h] == if h in b.field then NextTurn(b.cards[h]) else b.cards[h]
  {
    ForFieldCounts(b.cards, b.field, None, Upkeep, h);
    CardsOnly(b, ForField(b.cards, b.field, None, Upkeep));
    if h in b.field {
      IterateUpkeep(b.cards[h], multiset(b.field)[h]);
    }
  }

  /** `copy(card)`: a token copy of the card joins the end of the field. */
  function CopyToField(b: Board, h: nat): (r: Board)
    requires Valid(b) && h < |b.cards|
    ensures Valid(r)
  {
    HandlesSnoc(b.cards + [Copy(b.cards[h])], b.field, |b.cards|);
    var cards := b.cards + [Copy(b.cards[h])];
    assert Valid(b.(cards := cards));
    b.(cards := cards, field := b.field + [|b.cards|])
  }

  /** The copy is a new token (when it shows its own face), last on the field; every existing card and
      every other list is unchanged. */
  lemma CopyToFieldEffect(b: Board, h: nat)
    requires Valid(b) && h < |b.cards|
    ensures var r := CopyToField(b, h);
            && |r.cards| == |b.cards| + 1 && r.cards[..|b.cards|] == b.cards
            && (!Redirected(b.cards[h]) ==> IsToken(r.cards[|b.cards|])) && Name(r.cards[|b.cards|]) == Name(b.cards[h])
            && r.field == b.field + [|b.cards|]
            && r.(cards := b.cards, field := b.field) == b
  {
    CopyIsToken(b.cards[h]);
  }
}
