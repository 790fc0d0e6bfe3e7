/**
 * The game state of play.py as a value: the card arena, the zone lists of
 * handles, the commander, both players' counters and win flags, and the turn
 * bookkeeping. Operations that can raise return an Outcome: the state reached
 * when they stopped, and the error if one was raised (the source's updates
 * before a raise are not rolled back).
 */
module Boards {
  import opened Wrappers
  import opened Lists
  import opened Text
  import opened Cards
  import opened Lookup

  datatype Board = Board(
    cards: seq<Card>,
    deck: seq<nat>,
    library: seq<nat>,
    hand: seq<nat>,
    field: seq<nat>,
    grave: seq<nat>,
    exiled: seq<nat>,
    commander: Option<nat>,
    p1Life: int, p1Poison: int, p1Commander: int,
    p2Life: int, p2Poison: int, p2Commander: int,
    p1Win: bool, p2Win: bool, gameOver: bool,
    turn: int, mulls: int, commandPlayCount: int,
    revealed: bool,
    shuffles: nat)

  /** The counters and flags of a board: everything but the arena, the lists
      and the shuffle count. */
  datatype Tally = Tally(
    commander: Option<nat>,
    p1: (int, int, int), p2: (int, int, int),
    p1Win: bool, p2Win: bool, gameOver: bool,
    turn: int, mulls: int, commandPlayCount: int,
    revealed: bool)

  function TallyOf(b: Board): Tally
  {
    Tally(b.commander, (b.p1Life, b.p1Poison, b.p1Commander), (b.p2Life, b.p2Poison, b.p2Commander),
          b.p1Win, b.p2Win, b.gameOver, b.turn, b.mulls, b.commandPlayCount, b.revealed)
  }

  /** Every handle in every list, and the commander, names a card of the arena. */
  predicate Valid(b: Board)
  {
    && Handles(b.cards, b.deck) && Handles(b.cards, b.library) && Handles(b.cards, b.hand)
    && Handles(b.cards, b.field) && Handles(b.cards, b.grave) && Handles(b.cards, b.exiled)
    && (b.commander.Some? ==> b.commander.value < |b.cards|)
  }

  datatype Outcome = Outcome(board: Board, error: Option<Error>)

  function Done(b: Board): Outcome { Outcome(b, None) }
  function Failed(b: Board, e: Error): Outcome { Outcome(b, Some(e)) }

  /** `random.shuffle` on the library: `rand(list, n)` is the order the n-th
      shuffle of the game produces. */
  type Shuffler = (seq<nat>, nat) -> seq<nat>

  /** A shuffler only ever reorders. */
  ghost predicate IsShuffler(rand: Shuffler)
  {
    forall l: seq<nat>, k: nat :: multiset(rand(l, k)) == multiset(l)
  }

  function Shuffle(b: Board, rand: Shuffler): (r: Board)
    requires Valid(b) && IsShuffler(rand)
    ensures Valid(r) && multiset(r.library) == multiset(b.library)
    ensures r.shuffles == b.shuffles + 1 && r.(library := b.library, shuffles := b.shuffles) == b
  {
    ShuffleHandles(b.cards, b.library, rand(b.library, b.shuffles));
    b.(library := rand(b.library, b.shuffles), shuffles := b.shuffles + 1)
  }

  /** A reordering of a list of handles is a list of handles. */
  lemma ShuffleHandles(cards: seq<Card>, l: seq<nat>, m: seq<nat>)
    requires Handles(cards, l) && multiset(m) == multiset(l)
    ensures Handles(cards, m)
  {
    forall i | 0 <= i < |m| ensures m[i] < |cards| {
      assert m[i] in multiset(m);
      var j :| 0 <= j < |l| && l[j] == m[i];
    }
  }

  function SetCard(b: Board, h: nat, c: Card): (r: Board)
    requires h < |b.cards|
    ensures |r.cards| == |b.cards| && r.cards[h] == c && r.cards == b.cards[h := c]
    ensures Valid(b) ==> Valid(r)
    ensures r.hand == b.hand && r.field == b.field && r.grave == b.grave && r.exiled == b.exiled
    ensures r.library == b.library && r.deck == b.deck && TallyOf(r) == TallyOf(b)
  {
    b.(cards := b.cards[h := c])
  }

  predicate IsToken(c: Card)
  {
    Contains(TypeLine(c), "Token")
  }

  /** The source's test `type in thing.type()`. */
  predicate OfType(c: Card, t: CardType)
  {
    Contains(TypeLine(c), TypeName(t))
  }

  predicate IsCommander(b: Board, h: nat)
  {
    b.commander == Some(h)
  }

  /** A board stays valid when its cards change but not their number. */
  lemma ValidResized(b: Board, cards: seq<Card>)
    requires Valid(b) && |cards| == |b.cards|
    ensures Valid(b.(cards := cards))
  {
  }

  lemma HandlesSnoc(cards: seq<Card>, zone: seq<nat>, h: nat)
    requires Handles(cards, zone) && h < |cards|
    ensures Handles(cards, zone + [h]) && Handles(cards, [h] + zone)
  {
  }

  lemma {:induction false} HandlesRemove(cards: seq<Card>, zone: seq<nat>, h: nat)
    requires Handles(cards, zone)
    ensures Handles(cards, RemoveFirst(zone, h))
  {
    if zone != [] {
      HandlesRemove(cards, zone[1..], h);
    }
  }

  lemma HandlesDrop(cards: seq<Card>, zone: seq<nat>)
    requires Handles(cards, zone)
    ensures zone != [] ==> Handles(cards, zone[1..])
  {
    assert forall k :: 0 <= k < |zone| - 1 ==> zone[1..][k] == zone[k + 1];
  }

  lemma {:induction false} HandlesMembers(cards: seq<Card>, zone: seq<nat>, h: nat)
    requires Handles(cards, zone) && h in zone
    ensures h < |cards|
  {
  }

  // ---------------------------------------------------------------------------
  // Player counters (play.py:994-1032, 774-783)
  // ---------------------------------------------------------------------------

  /** One player's counters and the other player's win flag, the part of
      the board one branch of `modStat` touches. */
  datatype Side = Side(life: int, poison: int, damage: int, beaten: bool)

  /** One branch of `modStat`: life at or below 0, poison at or above 10 and
      commander damage above 20 give the other player the win; commander
      damage also costs life, without the life test; an unknown stat changes
      nothing. */
  function Bump(s: Side, stat: string, n: int): Side
  {
    if stat == "life" then s.(life := s.life + n, beaten := s.beaten || s.life + n <= 0)
    else if stat == "poison" then s.(poison := s.poison + n, beaten := s.beaten || s.poison + n >= 10)
    else if stat == "commander" then
      s.(damage := s.damage + n, life := s.life - n, beaten := s.beaten || s.damage + n > 20)
    else s
  }

  function SideOne(b: Board): Side { Side(b.p1Life, b.p1Poison, b.p1Commander, b.p2Win) }
  function SideTwo(b: Board): Side { Side(b.p2Life, b.p2Poison, b.p2Commander, b.p1Win) }

  /** `modStat(player, stat, n)`; a player other than p1 and p2 is a command
      error. */
  function ModStat(b: Board, player: string, stat: string, n: int): Outcome
  {
    if player == "p1" then
      var s := Bump(SideOne(b), stat, n);
      Done(b.(p1Life := s.life, p1Poison := s.poison, p1Commander := s.damage, p2Win := s.beaten))
    else if player == "p2" then
      var s := Bump(SideTwo(b), stat, n);
      Done(b.(p2Life := s.life, p2Poison := s.poison, p2Commander := s.damage, p1Win := s.beaten))
    else Failed(b, CommandError)
  }

  /** The counters of one player, as a triple (life, poison, commander damage). */
  function Stats(b: Board, player1: bool): (int, int, int)
  {
    if player1 then (b.p1Life, b.p1Poison, b.p1Commander) else (b.p2Life, b.p2Poison, b.p2Commander)
  }

  /** An unknown player is a command error and an unknown stat changes
      nothing. */
  lemma ModStatRefused(b: Board, player: string, stat: string, n: int)
    ensures player != "p1" && player != "p2" <==> ModStat(b, player, stat, n) == Failed(b, CommandError)
    ensures (player == "p1" || player == "p2") && stat != "life" && stat != "poison" && stat != "commander" ==>
              ModStat(b, player, stat, n) == Done(b)
  {
  }

  /** The thresholds of modStat for player one: the counters move by n, the
      opponent's win flag is set exactly when a threshold is crossed (or was
      already set), and player two's side is unchanged. */
  lemma ModStatPlayerOne(b: Board, stat: string, n: int)
    ensures var r := ModStat(b, "p1", stat, n).board;
            stat == "life" ==>
              Stats(r, true) == (b.p1Life + n, b.p1Poison, b.p1Commander) && (r.p2Win <==> b.p2Win || b.p1Life + n <= 0)
    ensures var r := ModStat(b, "p1", stat, n).board;
            stat == "poison" ==>
              Stats(r, true) == (b.p1Life, b.p1Poison + n, b.p1Commander) && (r.p2Win <==> b.p2Win || b.p1Poison + n >= 10)
    ensures var r := ModStat(b, "p1", stat, n).board;
            stat == "commander" ==>
              Stats(r, true) == (b.p1Life - n, b.p1Poison, b.p1Commander + n) && (r.p2Win <==> b.p2Win || b.p1Commander + n > 20)
    ensures var r := ModStat(b, "p1", stat, n).board;
            Stats(r, false) == Stats(b, false) && r.p1Win == b.p1Win
  {
  }

  /** The same thresholds for player two. */
  lemma ModStatPlayerTwo(b: Board, stat: string, n: int)
    ensures var r := ModStat(b, "p2", stat, n).board;
            stat == "life" ==>
              Stats(r, false) == (b.p2Life + n, b.p2Poison, b.p2Commander) && (r.p1Win <==> b.p1Win || b.p2Life + n <= 0)
    ensures var r := ModStat(b, "p2", stat, n).board;
            stat == "poison" ==>
              Stats(r, false) == (b.p2Life, b.p2Poison + n, b.p2Commander) && (r.p1Win <==> b.p1Win || b.p2Poison + n >= 10)
    ensures var r := ModStat(b, "p2", stat, n).board;
            stat == "commander" ==>
              Stats(r, false) == (b.p2Life - n, b.p2Poison, b.p2Commander + n) && (r.p1Win <==> b.p1Win || b.p2Commander + n > 20)
    ensures var r := ModStat(b, "p2", stat, n).board;
            Stats(r, true) == Stats(b, true) && r.p2Win == b.p2Win
  {
  }

  /** Commander damage costs life but cannot by itself win through the life
      threshold: 20 or fewer points of it leave the win flag alone. */
  lemma CommanderDamageSkipsLifeCheck(b: Board, n: int)
    requires b.p1Commander + n <= 20
    ensures ModStat(b, "p1", "commander", n).board.p1Life == b.p1Life - n
    ensures ModStat(b, "p1", "commander", n).board.p2Win == b.p2Win
  {
  }

  /** `checkVictory()`. */
  function CheckVictory(b: Board): Board
  {
    b.(gameOver := b.gameOver || b.p1Win || b.p2Win)
  }

  lemma CheckVictoryLaw(b: Board)
    ensures CheckVictory(b).gameOver <==> b.gameOver || b.p1Win || b.p2Win
    ensures CheckVictory(b).(gameOver := b.gameOver) == b
    ensures CheckVictory(CheckVictory(b)) == CheckVictory(b)
  {
  }

  // ---------------------------------------------------------------------------
  // Combat (play.py:840-868)
  // ---------------------------------------------------------------------------

  /** One attacker's damage: its power, twice over with double strike. */
  function Damage(p: nat, c: Card): nat
  {
    if "Double strike" in Keywords(c) then p + p else p
  }

  /** The three damage totals (normal, commander, poison). */
  datatype Totals = Totals(normal: int, commander: int, poison: int)

  /** Where one attacker's damage goes: poison with Infect, commander damage
      for the commander, normal damage otherwise. */
  function Add(t: Totals, damage: nat, infect: bool, isCommander: bool): Totals
  {
    if !infect then
      (if isCommander then t.(commander := t.commander + damage) else t.(normal := t.normal + damage))
    else t.(poison := t.poison + damage)
  }

  /** The damage applied to player two once the attackers are counted: the
      three `modStat` calls on player two's side. */
  function Apply(b: Board, t: Totals): Board
  {
    var s := Bump(Bump(Bump(SideTwo(b), "life", -t.normal), "poison", t.poison), "commander", t.commander);
    b.(p2Life := s.life, p2Poison := s.poison, p2Commander := s.damage, p1Win := s.beaten)
  }

  /** Applying the totals is the source's three `modStat` calls in a row. */
  lemma ApplyIsModStats(b: Board, t: Totals)
    ensures Apply(b, t)
            == ModStat(ModStat(ModStat(b, "p2", "life", -t.normal).board, "p2", "poison", t.poison).board,
                       "p2", "commander", t.commander).board
  {
  }

  /** The state of the attack loop: the arena with the attackers tapped so
      far, the totals, and the error that stopped it. */
  datatype Combat = Combat(cards: seq<Card>, totals: Totals, error: Option<Error>)

  /** The attack loop from the attacker `attackers[0]` on, with the totals
      counted so far. An attacker that is not a creature has no power and
      stops the loop with TypeError; one whose power cannot be read stops it
      with AttributeError; either way the earlier attackers are already
      tapped. */
  function AttackFrom(cards: seq<Card>, commander: Option<nat>, attackers: seq<nat>, t: Totals): (s: Combat)
    requires Handles(cards, attackers)
    ensures |s.cards| == |cards|
    decreases |attackers|
  {
    if attackers == [] then Combat(cards, t, None)
    else
      var h := attackers[0];
      var c := cards[h];
      match Power(c)
      case Err(e) => Combat(cards, t, Some(e))
      case Ok(None) => Combat(cards, t, Some(Uncaught("TypeError")))
      case Ok(Some(p)) =>
        var t' := Add(t, Damage(p, c), "Infect" in Keywords(c), commander == Some(h));
        AttackFrom(TapOne(cards, h), commander, attackers[1..], t')
  }

  /** One attacker taps, unless it has Vigilance. */
  function TapOne(cards: seq<Card>, h: nat): (r: seq<Card>)
    requires h < |cards|
    ensures |r| == |cards|
  {
    if "Vigilance" in Keywords(cards[h]) then cards else cards[h := Tap(cards[h])]
  }

  /** `attack(attackers)`. */
  function Attack(b: Board, attackers: seq<nat>): Outcome
    requires Handles(b.cards, attackers)
  {
    var s := AttackFrom(b.cards, b.commander, attackers, Totals(0, 0, 0));
    var tapped := b.(cards := s.cards);
    if s.error.Some? then Failed(tapped, s.error.value) else Done(Apply(tapped, s.totals))
  }

  /** A card that can attack: its power reads as a number. */
  predicate Fights(c: Card)
  {
    Power(c).Ok? && Power(c).value.Some?
  }

  /** Every attacker can attack. */
  predicate AllFight(cards: seq<Card>, attackers: seq<nat>)
    requires Handles(cards, attackers)
  {
    forall i :: 0 <= i < |attackers| ==> Fights(cards[attackers[i]])
  }

  /** The damage totals of the attackers, counted from their cards at the
      start of combat. */
  function Count(cards: seq<Card>, commander: Option<nat>, attackers: seq<nat>, t: Totals): Totals
    requires Handles(cards, attackers)
    requires AllFight(cards, attackers)
    decreases |attackers|
  {
    if attackers == [] then t
    else
      var c := cards[attackers[0]];
      Count(cards, commander, attackers[1..],
            Add(t, Damage(Power(c).value.value, c), "Infect" in Keywords(c), commander == Some(attackers[0])))
  }

  /** Tapping leaves power and keywords as they were. */
  lemma TapKeepsCombatStats(c: Card)
    ensures Power(Tap(c)) == Power(c) && Keywords(Tap(c)) == Keywords(c) && IsCreature(Tap(c)) == IsCreature(c)
    ensures BackLacksStats(Tap(c)) == BackLacksStats(c)
  {
  }

  /** The attackers' tapping, without the counting: each attacker without
      Vigilance is tapped, in order. */
  function TapAttackers(cards: seq<Card>, attackers: seq<nat>): seq<Card>
    requires Handles(cards, attackers)
    decreases |attackers|
  {
    if attackers == [] then cards
    else
      TapAttackers(TapOne(cards, attackers[0]), attackers[1..])
  }

  /** Tapping one card changes neither which attackers can attack nor the
      totals they count to. */
  lemma {:induction false} CountAfterTap(cards: seq<Card>, commander: Option<nat>, attackers: seq<nat>, t: Totals, h: nat)
    requires Handles(cards, attackers) && h < |cards|
    ensures AllFight(cards[h := Tap(cards[h])], attackers) == AllFight(cards, attackers)
    ensures AllFight(cards, attackers) ==>
              Count(cards[h := Tap(cards[h])], commander, attackers, t) == Count(cards, commander, attackers, t)
    decreases |attackers|
  {
    var tapped := cards[h := Tap(cards[h])];
    TapKeepsCombatStats(cards[h]);
    assert forall i :: 0 <= i < |attackers| ==> Fights(tapped[attackers[i]]) == Fights(cards[attackers[i]]);
    if attackers != [] && Fights(cards[attackers[0]]) {
      var c := cards[attackers[0]];
      CountAfterTap(cards, commander, attackers[1..], Add(t, Damage(Power(c).value.value, c), "Infect" in Keywords(c), commander == Some(attackers[0])), h);
      assert AllFight(cards, attackers) ==> AllFight(cards, attackers[1..]);
    }
  }

  /** The attackers can all attack when the first one can and the rest can. */
  lemma AllFightCons(cards: seq<Card>, attackers: seq<nat>)
    requires Handles(cards, attackers) && attackers != []
    ensures AllFight(cards, attackers) <==> Fights(cards[attackers[0]]) && AllFight(cards, attackers[1..])
  {
    assert forall i :: 0 < i < |attackers| ==> attackers[i] == attackers[1..][i - 1];
  }

  /** The source's loop is the counting applied to the cards as combat
      started, followed by the tapping. */
  lemma {:induction false} AttackDealsTotals(cards: seq<Card>, commander: Option<nat>, attackers: seq<nat>, t: Totals)
    requires Handles(cards, attackers) && AllFight(cards, attackers)
    ensures AttackFrom(cards, commander, attackers, t)
            == Combat(TapAttackers(cards, attackers), Count(cards, commander, attackers, t), None)
    decreases |attackers|
  {
    if attackers != [] {
      var h := attackers[0];
      var c := cards[h];
      AllFightCons(cards, attackers);
      var t' := Add(t, Damage(Power(c).value.value, c), "Infect" in Keywords(c), commander == Some(h));
      CountAfterTap(cards, commander, attackers[1..], t', h);
      AttackDealsTotals(TapOne(cards, h), commander, attackers[1..], t');
      assert Count(cards, commander, attackers, t) == Count(cards, commander, attackers[1..], t');
    }
  }

  /** An attacker that cannot attack makes the command fail: with TypeError
      when it is not a creature, with AttributeError when its power cannot be
      read, whichever comes first. */
  lemma {:induction false} AttackFails(cards: seq<Card>, commander: Option<nat>, attackers: seq<nat>, t: Totals)
    requires Handles(cards, attackers) && !AllFight(cards, attackers)
    ensures var e := AttackFrom(cards, commander, attackers, t).error;
            e == Some(Uncaught("TypeError")) || e == Some(Uncaught("AttributeError"))
    ensures (forall i :: 0 <= i < |attackers| ==> !BackLacksStats(cards[attackers[i]])) ==>
              AttackFrom(cards, commander, attackers, t).error == Some(Uncaught("TypeError"))
    ensures (forall i :: 0 <= i < |attackers| ==> IsCreature(cards[attackers[i]])) ==>
              AttackFrom(cards, commander, attackers, t).error == Some(Uncaught("AttributeError"))
    decreases |attackers|
  {
    var h := attackers[0];
    var c := cards[h];
    AllFightCons(cards, attackers);
    if Fights(c) {
      var rest := attackers[1..];
      var tapped := TapOne(cards, h);
      var t' := Add(t, Damage(Power(c).value.value, c), "Infect" in Keywords(c), commander == Some(h));
      TapOneKeepsKinds(cards, h, rest);
      assert forall i :: 0 < i < |attackers| ==> attackers[i] == rest[i - 1];
      AttackFails(tapped, commander, rest, t');
    }
  }

  /** Tapping one card changes, for no attacker, whether it can attack, is a
      creature, or lacks its back face's stats. */
  lemma TapOneKeepsKinds(cards: seq<Card>, h: nat, attackers: seq<nat>)
    requires Handles(cards, attackers) && h < |cards|
    ensures AllFight(TapOne(cards, h), attackers) == AllFight(cards, attackers)
    ensures (forall i :: 0 <= i < |attackers| ==> !BackLacksStats(TapOne(cards, h)[attackers[i]]))
            == (forall i :: 0 <= i < |attackers| ==> !BackLacksStats(cards[attackers[i]]))
    ensures (forall i :: 0 <= i < |attackers| ==> IsCreature(TapOne(cards, h)[attackers[i]]))
            == (forall i :: 0 <= i < |attackers| ==> IsCreature(cards[attackers[i]]))
  {
    TapKeepsCombatStats(cards[h]);
    var tapped := TapOne(cards, h);
    assert forall x :: 0 <= x < |cards| ==>
             && Fights(tapped[x]) == Fights(cards[x])
             && IsCreature(tapped[x]) == IsCreature(cards[x])
             && BackLacksStats(tapped[x]) == BackLacksStats(cards[x]);
  }

  /** How the totals land on player two (play.py:866-868). */
  lemma ApplyToPlayerTwo(b: Board, t: Totals)
    ensures var r := Apply(b, t);
            && Stats(r, false) == (b.p2Life - t.normal - t.commander, b.p2Poison + t.poison, b.p2Commander + t.commander)
            && (r.p1Win <==> b.p1Win || b.p2Life - t.normal <= 0 || b.p2Poison + t.poison >= 10 || b.p2Commander + t.commander > 20)
            && Stats(r, true) == Stats(b, true) && r.p2Win == b.p2Win && r.cards == b.cards
  {
  }
}
