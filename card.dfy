/**
 * A Magic card as the playtester handles it (card.py, class Card): its printed
 * faces, its zone, its temporary and permanent modifications, and the rules
 * that move it between zones.
 *
 * The source mutates a Card object in place. Here a card is a value: every
 * mutator is a function from the old card to the new one, and the game keeps
 * its cards in an arena (Boards.Board.cards) whose slot it overwrites, so a
 * card's identity is its arena index.
 */
module Cards {
  import opened Wrappers
  import opened Text
  import opened Cost
  import opened RulesText

  /** Card.ZONES, in the source's order. */
  datatype Zone = Battlefield | Command | Exile | Graveyard | Hand | Library | Top | Bottom

  const ZONES: seq<Zone> := [Battlefield, Command, Exile, Graveyard, Hand, Library, Top, Bottom]

  function ZoneName(z: Zone): string
  {
    match z
    case Battlefield => "Battlefield"
    case Command => "Command"
    case Exile => "Exile"
    case Graveyard => "Graveyard"
    case Hand => "Hand"
    case Library => "Library"
    case Top => "Top"
    case Bottom => "Bottom"
  }

  /** Card.TYPES, in the source's order. */
  datatype CardType = Creature | Planeswalker | Enchantment | Artifact | Land | Instant | Sorcery | Token | Emblem

  const TYPES: seq<CardType> := [Creature, Planeswalker, Enchantment, Artifact, Land, Instant, Sorcery, Token, Emblem]

  function TypeName(t: CardType): string
  {
    match t
    case Creature => "Creature"
    case Planeswalker => "Planeswalker"
    case Enchantment => "Enchantment"
    case Artifact => "Artifact"
    case Land => "Land"
    case Instant => "Instant"
    case Sorcery => "Sorcery"
    case Token => "Token"
    case Emblem => "Emblem"
  }

  /** The exceptions the engine raises. ZoneError, CardNotFoundError and
      CommandError are the source's own and are reported by its command loop;
      `Uncaught` stands for a Python exception (IndexError, ValueError,
      AttributeError, TypeError) that nothing in the source catches. */
  datatype Error =
    | ZoneError(message: string)
    | CardNotFound(name: string)
    | CommandError
    | Uncaught(exception: string)

  datatype Result<T> = Ok(value: T) | Err(error: Error)

  /** The printed data of one face, fixed once the card is built. `power` and
      `toughness` are 0 unless the type line says Creature; `loyalty` is the
      starting counters of a card whose type line is exactly Planeswalker. */
  datatype Face = Face(
    name: string, cost: string, color: string, typeLine: string, subtype: string,
    power: int, toughness: int, loyalty: int,
    text: string, keywords: seq<string>, anthem: Anthem)

  /** A card: its own face, the linked back face (a transform card's other
      side, a split card's other half, or the Morph token), and its state. */
  datatype Card = Card(
    face: Face,
    back: Option<Face>,
    zone: Zone,
    tapped: bool,
    transformed: bool,
    facedown: bool,
    sick: bool,
    powerMod: int,
    toughnessMod: int,
    countersMod: int,
    plusone: int,
    keywordMods: seq<string>,
    anthemPowerBonus: int,
    anthemToughnessBonus: int,
    anthemKeywordMod: seq<string>,
    commander: bool,
    flip: bool,
    split: bool,
    canMorph: bool)

  // ---------------------------------------------------------------------------
  // Construction (card.py:98-183)
  // ---------------------------------------------------------------------------

  /** The face a constructor call builds. `clause` is what the anthem and
      keyword-only patterns found in the rules text, if anything. */
  function FaceOf(name: string, cost: string, typeLine: string, subtype: string,
                  power: int, toughness: int, text: string, clause: Option<string>): Face
  {
    var body := ReplaceChar(text, '\\', '\n');
    var creature := Contains(typeLine, "Creature");
    Face(name, cost, ColourOf(cost), typeLine, subtype,
         if creature then power else 0, if creature then toughness else 0,
         if typeLine == "Planeswalker" then power else 0,
         body, KeywordsOf(KEYWORDS, body),
         match clause case None => NoAnthem case Some(m) => AnthemOf(KEYWORDS, m, body))
  }

  /** The face of the token a morph card shows face down: a colourless 2/2
      Creature named Morph with no text. */
  const MorphFace: Face := Face("Morph", "", "Colorless", "Creature", "", 2, 2, 0, "", [], NoAnthem)

  /** A new card around a face: in the library, untapped, unmodified, sick if
      it is a creature, and linked to the Morph token when it has Morph or
      Megamorph. */
  function Fresh(face: Face): Card
  {
    var morph := "Morph" in face.keywords || "Megamorph" in face.keywords;
    Card(face, if morph then Some(MorphFace) else None, Library,
         false, false, false, Contains(face.typeLine, "Creature"),
         0, 0, 0, 0, [], 0, 0, [], false, false, false, morph)
  }

  /** The constructor's `int(power)` and `int(toughness)`: both for a
      creature, power alone (the starting loyalty) for a planeswalker, neither
      otherwise; the first that is not a number raises ValueError. A value
      that is not read is 0. */
  function PrintedStats(typeLine: string, power: string, toughness: string): Result<(int, int)>
  {
    var creature := Contains(typeLine, "Creature");
    if creature && ParseInt(power).None? then Err(Uncaught("ValueError"))
    else if creature && ParseInt(toughness).None? then Err(Uncaught("ValueError"))
    else if typeLine == "Planeswalker" && ParseInt(power).None? then Err(Uncaught("ValueError"))
    else
      Ok((if creature || typeLine == "Planeswalker" then ParseInt(power).value else 0,
          if creature then ParseInt(toughness).value else 0))
  }

  /** Card(name, cost, type, subtype, power, toughness, text, transform): the
      cost is checked first, then power and toughness are read. */
  function Build(name: string, cost: string, typeLine: string, subtype: string,
                 power: string, toughness: string, text: string, clause: Option<string>): Result<Card>
  {
    if !ValidCost(cost) then Err(Uncaught("TypeError: Mana cost for " + name + " is formatted incorrectly."))
    else
      match PrintedStats(typeLine, power, toughness)
      case Err(e) => Err(e)
      case Ok((p, t)) => Ok(Fresh(FaceOf(name, cost, typeLine, subtype, p, t, text, clause)))
  }

  /** The constructor, running the rules-text parser's loops. */
  method NewCard(name: string, cost: string, typeLine: string, subtype: string,
                 power: string, toughness: string, text: string, clause: Option<string>)
    returns (r: Result<Card>)
    ensures r == Build(name, cost, typeLine, subtype, power, toughness, text, clause)
    ensures r.Ok? <==> ValidCost(cost) && PrintedStats(typeLine, power, toughness).Ok?
    ensures ValidCost(cost) && PrintedStats(typeLine, power, toughness).Err? ==> r == Err(Uncaught("ValueError"))
    ensures r.Ok? ==> r.value.zone == Library && forall k :: k in r.value.face.keywords ==> k in KEYWORDS
    ensures r.Ok? && Contains(typeLine, "Creature") ==>
              Some(r.value.face.power) == ParseInt(power) && Some(r.value.face.toughness) == ParseInt(toughness)
  {
    if !ValidCost(cost) {
      return Err(Uncaught("TypeError: Mana cost for " + name + " is formatted incorrectly."));
    }
    var stats := PrintedStats(typeLine, power, toughness);
    if stats.Err? {
      return Err(stats.error);
    }
    var (p, t) := stats.value;
    var body := ReplaceChar(text, '\\', '\n');
    var keywords := ParseKeywords(KEYWORDS, body);
    var anthem := NoAnthem;
    if clause.Some? {
      anthem := DecomposeAnthem(KEYWORDS, clause.value, body);
    }
    var creature := Contains(typeLine, "Creature");
    var face := Face(name, cost, ColourOf(cost), typeLine, subtype,
                     if creature then p else 0, if creature then t else 0,
                     if typeLine == "Planeswalker" then p else 0,
                     body, keywords, anthem);
    KeywordsOfAreKeywords(KEYWORDS, body);
    r := Ok(Fresh(face));
  }

  // ---------------------------------------------------------------------------
  // Accessors (card.py:322-507)
  // ---------------------------------------------------------------------------

  /** The card's own type line says Creature. */
  predicate IsCreature(c: Card)
  {
    Contains(c.face.typeLine, "Creature")
  }

  /** The printed data comes from the back face while the card is transformed
      or face down. */
  predicate Redirected(c: Card)
  {
    (c.transformed || c.facedown) && c.back.Some?
  }

  /** The face whose printed data the accessors report. */
  function Shown(c: Card): Face
  {
    if Redirected(c) then c.back.value else c.face
  }

  function Name(c: Card): string { Shown(c).name }
  function Color(c: Card): string { Shown(c).color }
  function TypeLine(c: Card): string { Shown(c).typeLine }
  function Subtype(c: Card): string { Shown(c).subtype }
  function RulesTextOf(c: Card): string { Shown(c).text }
  function HasAnthem(c: Card): bool { Shown(c).anthem.has }

  function AnthemTypes(c: Card): Option<seq<string>>
  {
    if HasAnthem(c) then Some(Shown(c).anthem.types) else None
  }

  function AnthemPower(c: Card): Option<int>
  {
    if HasAnthem(c) then Some(Shown(c).anthem.power) else None
  }

  function AnthemToughness(c: Card): Option<int>
  {
    if HasAnthem(c) then Some(Shown(c).anthem.toughness) else None
  }

  /** The back face's granted keywords while it provides the anthem, else the
      card's own. */
  function AnthemKeywords(c: Card): seq<string>
  {
    if HasAnthem(c) && Redirected(c) then c.back.value.anthem.keywords else c.face.anthem.keywords
  }

  function ClampZero(v: int): nat
  {
    if v < 0 then 0 else v
  }

  /** Base power of the shown face plus this card's own modifications. */
  function RawPower(c: Card): int
  {
    Shown(c).power + c.powerMod + c.anthemPowerBonus + c.plusone
  }

  function RawToughness(c: Card): int
  {
    Shown(c).toughness + c.toughnessMod + c.anthemToughnessBonus + c.plusone
  }

  /** A creature whose power and toughness are read from a back face that
      was built without them: the constructor sets base power and toughness
      only for a Creature type line, so the read raises AttributeError. */
  predicate BackLacksStats(c: Card)
  {
    IsCreature(c) && Redirected(c) && !Contains(c.back.value.typeLine, "Creature")
  }

  /** `power()`: None for a non-creature, AttributeError when the base power
      is missing. */
  function Power(c: Card): Result<Option<nat>>
  {
    if !IsCreature(c) then Ok(None)
    else if BackLacksStats(c) then Err(Uncaught("AttributeError"))
    else Ok(Some(ClampZero(RawPower(c))))
  }

  /** `toughness()`: None for a non-creature, AttributeError when the base
      toughness is missing. */
  function Toughness(c: Card): Result<Option<nat>>
  {
    if !IsCreature(c) then Ok(None)
    else if BackLacksStats(c) then Err(Uncaught("AttributeError"))
    else Ok(Some(ClampZero(RawToughness(c))))
  }

  function Abs(n: int): nat
  {
    if n < 0 then -n else n
  }

  /** `counters()`: the shown face's loyalty, the counter modification and the
      number of +1/+1 or -1/-1 counters. */
  function Counters(c: Card): int
  {
    Shown(c).loyalty + c.countersMod + Abs(c.plusone)
  }

  function PlusOne(c: Card): Option<int>
  {
    if IsCreature(c) then Some(c.plusone) else None
  }

  /** `keywords()`: printed, then granted by anthems, then temporary. */
  function Keywords(c: Card): seq<string>
  {
    c.face.keywords + c.anthemKeywordMod + c.keywordMods
  }

  function SummonSick(c: Card): bool
  {
    IsCreature(c) && c.sick
  }

  /** `linked()`: whether a transform or split card has its other face; None
      for other cards. */
  function Linked(c: Card): Option<bool>
  {
    if c.flip || c.split then Some(c.back.Some?) else None
  }

  /** The power law of card.py:439-448 and 484-493: a non-creature has no
      power or toughness; a creature reading them from a back face that lacks
      them raises AttributeError; any other creature's power is its shown
      base plus its own modifications, floored at zero. The base follows the
      face shown, the modifications stay with the card. */
  lemma PowerLaw(c: Card)
    ensures Power(c) == Ok(None) <==> !IsCreature(c)
    ensures Toughness(c) == Ok(None) <==> !IsCreature(c)
    ensures Power(c).Err? <==> BackLacksStats(c)
    ensures Toughness(c).Err? <==> BackLacksStats(c)
    ensures Power(c).Err? ==> Power(c).error == Uncaught("AttributeError") && Toughness(c).error == Uncaught("AttributeError")
    ensures BackLacksStats(c) ==> IsCreature(c) && Redirected(c) && !Contains(TypeLine(c), "Creature")
    ensures IsCreature(c) && !BackLacksStats(c) ==> Power(c).Ok? && Power(c).value.Some? && Toughness(c).Ok? && Toughness(c).value.Some?
    ensures IsCreature(c) && !BackLacksStats(c) ==> Power(c).value.value as int >= RawPower(c) && Toughness(c).value.value as int >= RawToughness(c)
    ensures IsCreature(c) && !BackLacksStats(c) && Shown(c).power + c.powerMod + c.anthemPowerBonus + c.plusone >= 0 ==>
              Power(c).value.value == Shown(c).power + c.powerMod + c.anthemPowerBonus + c.plusone
    ensures IsCreature(c) && !BackLacksStats(c) && Shown(c).power + c.powerMod + c.anthemPowerBonus + c.plusone < 0 ==> Power(c).value.value == 0
    ensures IsCreature(c) && !BackLacksStats(c) && Shown(c).toughness + c.toughnessMod + c.anthemToughnessBonus + c.plusone >= 0 ==>
              Toughness(c).value.value == Shown(c).toughness + c.toughnessMod + c.anthemToughnessBonus + c.plusone
    ensures IsCreature(c) && !BackLacksStats(c) && Shown(c).toughness + c.toughnessMod + c.anthemToughnessBonus + c.plusone < 0 ==> Toughness(c).value.value == 0
  {
  }

  /** A creature whose shown type line is a creature's always has its power
      and toughness: the back face it reads them from was built with them. */
  lemma ShownCreatureHasStats(c: Card)
    requires IsCreature(c) && Contains(TypeLine(c), "Creature")
    ensures Power(c).Ok? && Power(c).value.Some? && Toughness(c).Ok? && Toughness(c).value.Some?
  {
  }

  // ---------------------------------------------------------------------------
  // Mutators (card.py:519-584)
  // ---------------------------------------------------------------------------

  function AddAnthemPower(c: Card, n: int): Card { c.(anthemPowerBonus := c.anthemPowerBonus + n) }
  function AddAnthemToughness(c: Card, n: int): Card { c.(anthemToughnessBonus := c.anthemToughnessBonus + n) }
  function AddAnthemKeywords(c: Card, ks: seq<string>): Card { c.(anthemKeywordMod := c.anthemKeywordMod + ks) }

  /** `resetAnthem()`. */
  function ResetAnthem(c: Card): Card
  {
    c.(anthemPowerBonus := 0, anthemToughnessBonus := 0, anthemKeywordMod := [])
  }

  /** `modCounters(n)`: on the battlefield only; the card's own loyalty plus the
      modification never goes below zero. */
  function ModCounters(c: Card, n: int): Card
  {
    if c.zone == Battlefield then
      var m := c.countersMod + n;
      c.(countersMod := if c.face.loyalty + m < 0 then 0 - c.face.loyalty else m)
    else c
  }

  /** `modKeywords(k)`: a temporary keyword, unless it is not a keyword, is
      Morph or Megamorph, or the card already has it; Haste ends sickness. */
  function ModKeywords(c: Card, k: string): Card
  {
    ModKeywordsIn(KEYWORDS, c, k)
  }

  /** `modKeywords` against a given keyword table. */
  function ModKeywordsIn(table: seq<string>, c: Card, k: string): Card
  {
    if k in table && k != "Morph" && k != "Megamorph" && k !in Keywords(c) then
      c.(keywordMods := c.keywordMods + [k], sick := if k == "Haste" then false else c.sick)
    else c
  }

  /** The guard of modPower, modToughness and modPlusOne. */
  predicate ModifiableCreature(c: Card)
  {
    IsCreature(c) && c.zone == Battlefield
  }

  function ModPlusOne(c: Card, n: int): Card
  {
    if ModifiableCreature(c) then c.(plusone := c.plusone + n) else c
  }

  function ModPower(c: Card, n: int): Card
  {
    if ModifiableCreature(c) then c.(powerMod := c.powerMod + n) else c
  }

  function ModToughness(c: Card, n: int): Card
  {
    if ModifiableCreature(c) then c.(toughnessMod := c.toughnessMod + n) else c
  }

  /** `setCommander()`. */
  function SetCommander(c: Card): Card
  {
    c.(commander := true, zone := Command)
  }

  function SetTransform(c: Card): Card { c.(flip := true) }
  function SetSplit(c: Card): Card { c.(split := true) }

  /** A power modification changes a creature on the battlefield by exactly
      its amount and nothing else about it; on any other card it does nothing. */
  lemma ModPowerGuarded(c: Card, n: int)
    ensures ModifiableCreature(c) ==> RawPower(ModPower(c, n)) == RawPower(c) + n
    ensures ModPower(c, n).(powerMod := c.powerMod) == c
    ensures !ModifiableCreature(c) ==> ModPower(c, n) == c
  {
  }

  /** The same for toughness. */
  lemma ModToughnessGuarded(c: Card, n: int)
    ensures ModifiableCreature(c) ==> RawToughness(ModToughness(c, n)) == RawToughness(c) + n
    ensures ModToughness(c, n).(toughnessMod := c.toughnessMod) == c
    ensures !ModifiableCreature(c) ==> ModToughness(c, n) == c
  {
  }

  /** +1/+1 counters move both power and toughness, and count towards
      counters() by their absolute number. */
  lemma ModPlusOneGuarded(c: Card, n: int)
    ensures ModifiableCreature(c) ==>
              RawPower(ModPlusOne(c, n)) == RawPower(c) + n && RawToughness(ModPlusOne(c, n)) == RawToughness(c) + n
    ensures ModifiableCreature(c) ==> Counters(ModPlusOne(c, n)) == Counters(c) - Abs(c.plusone) + Abs(c.plusone + n)
    ensures ModPlusOne(c, n).(plusone := c.plusone) == c
    ensures !ModifiableCreature(c) ==> ModPlusOne(c, n) == c
  {
  }

  /** On the battlefield, counters move by `n` unless that would take the
      card's own loyalty plus modification below zero, where they stop at zero;
      elsewhere nothing changes. */
  lemma ModCountersFloor(c: Card, n: int)
    ensures c.zone != Battlefield ==> ModCounters(c, n) == c
    ensures c.zone == Battlefield ==> c.face.loyalty + ModCounters(c, n).countersMod >= 0
    ensures c.zone == Battlefield && c.face.loyalty + c.countersMod + n >= 0 ==>
              ModCounters(c, n).countersMod == c.countersMod + n
    ensures ModCounters(c, n).(countersMod := c.countersMod) == c
    ensures c.zone == Battlefield && !Redirected(c) ==> Counters(ModCounters(c, n)) >= 0
  {
  }

  /** A temporary keyword is never a duplicate, never Morph or Megamorph, and
      is added exactly when it is a keyword the card lacks; Haste ends
      summoning sickness. */
  lemma ModKeywordsRefused(table: seq<string>, c: Card, k: string)
    ensures k in Keywords(c) ==> ModKeywordsIn(table, c, k) == c
    ensures (k == "Morph" || k == "Megamorph") ==> ModKeywordsIn(table, c, k) == c
    ensures k !in table ==> ModKeywordsIn(table, c, k) == c
  {
  }

  lemma ModKeywordsGranted(table: seq<string>, c: Card, k: string)
    requires k in table && k != "Morph" && k != "Megamorph" && k !in Keywords(c)
    ensures Keywords(ModKeywordsIn(table, c, k)) == Keywords(c) + [k]
    ensures ModKeywordsIn(table, c, k).sick == (c.sick && k != "Haste")
    ensures ModKeywordsIn(table, c, k).(keywordMods := c.keywordMods, sick := c.sick) == c
  {
  }

  // ---------------------------------------------------------------------------
  // Transitions (card.py:595-748)
  // ---------------------------------------------------------------------------

  /** `enter()`: tapped if the text says it enters tapped; a plain Creature
      with printed Haste is not summoning sick. */
  function Enter(c: Card): Card
  {
    var tapped := c.tapped || Contains(c.face.text, c.face.name + " enters the battlefield tapped");
    var haste := c.face.typeLine == "Creature" && "Haste" in c.face.keywords;
    c.(tapped := tapped, sick := if haste then false else c.sick)
  }

  /** `play()`: spells go to the graveyard, or to exile when the text exiles
      the card itself; permanents enter the battlefield. A card of none of
      these types stays where it was. */
  function Play(c: Card): Card
  {
    var t := c.face.typeLine;
    if Contains(t, "Instant") || Contains(t, "Sorcery") then
      c.(zone := if Contains(c.face.text, "Exile " + c.face.name) then Exile else Graveyard)
    else if Contains(t, "Artifact") || Contains(t, "Creature") || Contains(t, "Enchantment")
            || Contains(t, "Land") || Contains(t, "Planeswalker") then
      Enter(c.(zone := Battlefield))
    else c
  }

  /** A spell type on the card's own type line. */
  predicate IsSpell(c: Card)
  {
    Contains(c.face.typeLine, "Instant") || Contains(c.face.typeLine, "Sorcery")
  }

  /** A permanent type on the card's own type line. */
  predicate IsPermanent(c: Card)
  {
    var t := c.face.typeLine;
    Contains(t, "Artifact") || Contains(t, "Creature") || Contains(t, "Enchantment")
    || Contains(t, "Land") || Contains(t, "Planeswalker")
  }

  /** Where played cards go, and what entering does. */
  lemma PlayRouting(c: Card)
    ensures IsSpell(c) ==> Play(c).zone == (if Contains(c.face.text, "Exile " + c.face.name) then Exile else Graveyard)
    ensures IsSpell(c) ==> Play(c).(zone := c.zone) == c
    ensures !IsSpell(c) && IsPermanent(c) ==> Play(c).zone == Battlefield
    ensures !IsSpell(c) && IsPermanent(c) ==>
              Play(c).tapped == (c.tapped || Contains(c.face.text, c.face.name + " enters the battlefield tapped"))
    ensures !IsSpell(c) && IsPermanent(c) ==>
              Play(c).sick == (c.sick && !(c.face.typeLine == "Creature" && "Haste" in c.face.keywords))
    ensures !IsSpell(c) && !IsPermanent(c) ==> Play(c) == c
  {
  }

  /** `nextTurn()`: a creature is no longer summoning sick. */
  function NextTurn(c: Card): Card
  {
    if IsCreature(c) then c.(sick := false) else c
  }

  /** `endTurn()`: until-end-of-turn changes go; counters stay. */
  function EndTurn(c: Card): Card
  {
    c.(powerMod := 0, toughnessMod := 0, keywordMods := [])
  }

  /** The end of turn removes temporary power, toughness and keywords only:
      +1/+1 counters and counter modifications stay, so counters() is as before. */
  lemma EndTurnKeepsCounters(c: Card)
    ensures EndTurn(c).plusone == c.plusone && EndTurn(c).countersMod == c.countersMod
    ensures Counters(EndTurn(c)) == Counters(c)
    ensures IsCreature(c) ==> RawPower(EndTurn(c)) == Shown(c).power + c.anthemPowerBonus + c.plusone
    ensures Keywords(EndTurn(c)) == c.face.keywords + c.anthemKeywordMod
    ensures EndTurn(EndTurn(c)) == EndTurn(c)
  {
  }

  function Tap(c: Card): Card
  {
    if c.zone == Battlefield then c.(tapped := true) else c
  }

  function Untap(c: Card): Card
  {
    c.(tapped := false)
  }

  /** Tapping has an effect only on the battlefield; untapping always clears
      the flag. */
  lemma TapLaws(c: Card)
    ensures Tap(c).tapped == (c.tapped || c.zone == Battlefield)
    ensures Tap(c).(tapped := c.tapped) == c
  {
  }

  /** Untapping after a tap is untapping alone. */
  lemma UntapLaws(c: Card)
    ensures !Untap(c).tapped && Untap(c).(tapped := c.tapped) == c
    ensures Untap(Tap(c)) == Untap(c)
  {
    if c.zone == Battlefield {
      assert Tap(c) == c.(tapped := true);
    }
  }

  function Discard(c: Card): Card
  {
    if c.zone == Hand then c.(zone := Graveyard) else c
  }

  /** `draw()`: from the library to the hand. Elsewhere the source's error
      path names an attribute Card does not have, so it fails with
      AttributeError. */
  function Draw(c: Card): Result<Card>
  {
    if c.zone == Library then Ok(c.(zone := Hand)) else Err(Uncaught("AttributeError"))
  }

  /** `transform()`: only a transform card changes sides. */
  function Transform(c: Card): Card
  {
    if c.flip then c.(transformed := !c.transformed) else c
  }

  /** `morph()`: only a morph card turns face up or down. */
  function Morph(c: Card): Card
  {
    if c.canMorph then c.(facedown := !c.facedown) else c
  }

  /** `leave()`: a card leaving the battlefield turns back to its front (if it
      is a transform card), loses its temporary changes and counter
      modification, untaps, and a creature without printed Haste is summoning
      sick again. +1/+1 counters are not cleared. */
  function Leave(c: Card): Card
  {
    var d := if c.transformed || c.facedown then Transform(c) else c;
    d.(powerMod := 0, toughnessMod := 0, countersMod := 0, tapped := false,
       sick := if IsCreature(c) && "Haste" !in c.face.keywords then true else d.sick)
  }

  lemma LeaveResets(c: Card)
    ensures var l := Leave(c);
            l.powerMod == 0 && l.toughnessMod == 0 && l.countersMod == 0 && !l.tapped
            && l.plusone == c.plusone && l.zone == c.zone && l.facedown == c.facedown
            && l.keywordMods == c.keywordMods
            && l.transformed == (if c.flip && (c.transformed || c.facedown) then !c.transformed else c.transformed)
            && (IsCreature(c) && "Haste" !in c.face.keywords ==> l.sick)
            && (!(IsCreature(c) && "Haste" !in c.face.keywords) ==> l.sick == c.sick)
  {
  }

  /** A face-down morph that leaves the battlefield stays face down (transform
      does nothing to a card that is not a transform card). */
  lemma FaceDownMorphStaysFaceDown(c: Card)
    requires c.facedown && !c.flip
    ensures Leave(c).facedown && Leave(c).transformed == c.transformed
    ensures Redirected(Leave(c)) == Redirected(c)
  {
  }

  /** `move(zone)`. A commander goes to the command zone unless it is going to
      the hand or the battlefield; an emblem may only go to the battlefield;
      only the commander may go to the command zone. The errors leave the
      card as it was; leaving the battlefield runs `leave()`. */
  function Move(c: Card, z: Zone): Result<Card>
  {
    var leaves := c.zone == Battlefield && z != Battlefield;
    var moved :=
      if c.commander then Ok(c.(zone := if z != Hand && z != Battlefield then Command else z))
      else if Contains(c.face.typeLine, "Emblem") then
        (if z != Battlefield then Err(ZoneError("Can't interact with emblems on the battlefield."))
         else Ok(c.(zone := Battlefield)))
      else if z != Command then Ok(c.(zone := z))
      else Err(ZoneError("Only the commander can be put in the command zone."));
    match moved
    case Ok(d) => if leaves then Ok(Leave(d)) else Ok(d)
    case Err(e) => Err(e)
  }

  /** The zone a successful move ends in. */
  function Destination(c: Card, z: Zone): Zone
  {
    if c.commander && z != Hand && z != Battlefield then Command else z
  }

  predicate IsEmblem(c: Card)
  {
    Contains(c.face.typeLine, "Emblem")
  }

  /** The move rules of card.py:718-741, as an independent case analysis. */
  lemma MoveRules(c: Card, z: Zone)
    ensures Move(c, z).Err? <==> !c.commander && ((IsEmblem(c) && z != Battlefield) || (!IsEmblem(c) && z == Command))
    ensures Move(c, z).Err? ==> Move(c, z).error.ZoneError?
    ensures Move(c, z).Ok? ==> Move(c, z).value.zone == Destination(c, z)
    ensures Move(c, z).Ok? && c.zone == Battlefield && z != Battlefield ==>
              Move(c, z).value == Leave(c.(zone := Destination(c, z)))
    ensures Move(c, z).Ok? && !(c.zone == Battlefield && z != Battlefield) ==>
              Move(c, z).value == c.(zone := Destination(c, z))
    ensures c.commander ==> Move(c, z).Ok? && ((z == Hand || z == Battlefield || z == Command) <==> Move(c, z).value.zone == z)
  {
    MoveValue(c, z);
  }

  /** The card a successful move returns: the left-the-battlefield reset
      when it leaves the field, the card with its new zone otherwise. */
  lemma MoveValue(c: Card, z: Zone)
    ensures Move(c, z).Ok? && c.zone == Battlefield && z != Battlefield ==>
              Move(c, z).value == Leave(c.(zone := Destination(c, z)))
    ensures Move(c, z).Ok? && !(c.zone == Battlefield && z != Battlefield) ==>
              Move(c, z).value == c.(zone := Destination(c, z))
  {
  }

  /** `linkBackSide(card)`: the other face is attached; a split card's name
      becomes "front/back". */
  function LinkBackSide(c: Card, other: Card): Card
  {
    c.(back := Some(other.face),
       face := if c.split then c.face.(name := c.face.name + "/" + other.face.name) else c.face)
  }

  /** Linking makes a transform or split card report itself linked, and the
      shown name of a transformed card is then the other face's. */
  lemma LinkBackSideLinks(c: Card, other: Card)
    ensures (c.flip || c.split) ==> Linked(LinkBackSide(c, other)) == Some(true)
    ensures c.split ==> LinkBackSide(c, other).face.name == c.face.name + "/" + other.face.name
    ensures !c.split ==> LinkBackSide(c, other).face == c.face
    ensures c.transformed ==> Name(LinkBackSide(c, other)) == other.face.name
  {
  }

  /** `copy()`: a token copy, identical except that its own type line says
      Token. */
  function Copy(c: Card): Card
  {
    c.(face := c.face.(typeLine := TokenTypeOf(c.face.typeLine)))
  }

  lemma CopyIsToken(c: Card)
    ensures Contains(Copy(c).face.typeLine, "Token")
    ensures Copy(Copy(c)) == Copy(c)
    ensures Copy(c).(face := c.face) == c
  {
    TokenTypeSaysToken(c.face.typeLine);
  }

  /** A new card starts in the library with no modifications; it is linked to
      the Morph token exactly when its keywords include Morph or Megamorph.
      A morph card turned face down shows a colourless 2/2 named Morph. */
  lemma FreshCard(face: Face)
    ensures var c := Fresh(face);
            c.zone == Library && !c.tapped && !c.commander
            && c.powerMod == 0 && c.toughnessMod == 0 && c.countersMod == 0 && c.plusone == 0
            && (c.canMorph <==> "Morph" in face.keywords || "Megamorph" in face.keywords)
            && (c.canMorph ==> Name(Morph(c)) == "Morph" && Color(Morph(c)) == "Colorless"
                               && Morph(c).facedown && Morph(Morph(c)) == c)
            && Counters(c) == face.loyalty
  {
  }

  /** A transformed transform card shows its other face's base stats, but
      keeps its own modifications: transforming shifts the unclamped power by
      the difference of the two faces' base powers. */
  lemma TransformKeepsMods(c: Card)
    requires c.flip && c.back.Some? && !c.facedown && !c.transformed
    ensures Redirected(Transform(c))
    ensures RawPower(Transform(c)) == RawPower(c) - c.face.power + c.back.value.power
    ensures RawToughness(Transform(c)) == RawToughness(c) - c.face.toughness + c.back.value.toughness
    ensures Keywords(Transform(c)) == Keywords(c)
    ensures Transform(Transform(c)) == c
  {
  }

  /** A constructor accepts exactly the costs the cost grammar allows, or the
      "TRANSFORM" sentinel; the colour then lists the WUBRG words present. */
  lemma BuildAcceptsCost(name: string, cost: string, typeLine: string, subtype: string,
                         power: string, toughness: string, text: string, clause: Option<string>)
    ensures Build(name, cost, typeLine, subtype, power, toughness, text, clause).Ok? ==> ValidCost(cost)
    ensures var r := Build(name, cost, typeLine, subtype, power, toughness, text, clause);
            r.Ok? ==> r.value.face.color == (if ColourNames(cost) == [] then "Colorless" else Join(ColourNames(cost), " "))
    ensures var r := Build(name, cost, typeLine, subtype, power, toughness, text, clause);
            !ValidCost(cost) ==> r == Err(Uncaught("TypeError: Mana cost for " + name + " is formatted incorrectly."))
  {
    ColourOfIsJoinedNames(cost);
  }

  /** Power and toughness are read as the constructor reads them: a creature
      needs both to be numbers and keeps them, a planeswalker needs its
      power to be one and starts with that many loyalty counters, any other
      card ignores both and stores 0. */
  lemma BuildReadsStats(name: string, cost: string, typeLine: string, subtype: string,
                        power: string, toughness: string, text: string, clause: Option<string>)
    requires ValidCost(cost)
    ensures var r := Build(name, cost, typeLine, subtype, power, toughness, text, clause);
            && (r.Err? <==> (Contains(typeLine, "Creature") && (ParseInt(power).None? || ParseInt(toughness).None?))
                            || (typeLine == "Planeswalker" && ParseInt(power).None?))
            && (r.Err? ==> r.error == Uncaught("ValueError"))
            && (r.Ok? && Contains(typeLine, "Creature") ==>
                  Some(r.value.face.power) == ParseInt(power) && Some(r.value.face.toughness) == ParseInt(toughness))
            && (r.Ok? && typeLine == "Planeswalker" ==> Some(r.value.face.loyalty) == ParseInt(power))
            && (r.Ok? && !Contains(typeLine, "Creature") ==> r.value.face.power == 0 && r.value.face.toughness == 0)
  {
  }

  /** A creature whose positive power and toughness are written in decimal is built
      with those numbers. */
  lemma BuildDecimalStats(name: string, cost: string, typeLine: string, subtype: string,
                          p: nat, t: nat, text: string, clause: Option<string>)
    requires ValidCost(cost) && Contains(typeLine, "Creature") && p > 0 && t > 0
    ensures var r := Build(name, cost, typeLine, subtype, DecimalText(p), DecimalText(t), text, clause);
            r.Ok? && r.value.face.power == p && r.value.face.toughness == t
  {
    ParseIntDecimal(p);
    ParseIntDecimal(t);
  }
}
