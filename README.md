# MTG playtester core in Dafny

This project models the rules engine of a single-player Magic: The Gathering
playtester: the `Card` entity of `card.py` and the zone-list operations of
`play.py`.

**Cards.** A card has a printed face and possibly a linked back face: the other
side of a transform card, the other half of a split card, or the Morph token.
It also carries a zone and its temporary and permanent modifications:
- temporary power, toughness and keyword changes;
- counter changes and +1/+1 counters;
- anthem bonuses;
- tapped, transformed, face-down and summoning-sick flags.

The constructor checks the mana cost and derives the colour. It then parses the
rules text for printed keywords, the Morph keyword and an anthem. The accessors
read the back face's printed data while the card is transformed or face down.
The mutators are guarded by zone and type. `move` enforces the commander and
emblem rules.

**Game.** The game keeps the library, hand, battlefield, graveyard and exile
lists, the commander, both players' life, poison and commander damage, the win
flags, and turn, mulligan and command-play counts. The commands are:
- draw, discard, play, move, kill, exile, sacrifice, bounce;
- tap, untap, counters, power, toughness, +1/+1 counters, copy;
- end of turn, next turn, mulligan, reshuffle, reset;
- modStat, attack and the victory check.

After each state-changing command the engine applies anthems, then the
state-based actions.

Modules:
- `Wrappers`, `Lists` (wrappers.dfy): Option, and the list operations the source
  uses (`list.remove` is `RemoveFirst`).
- `Text` (text.dfy): Python string methods on `string`.
- `Cost` (cost.dfy): the mana-cost pattern and the colour of a cost.
- `RulesText` (rules_text.dfy): keyword, Morph and anthem extraction, and the
  type line of a token copy.
- `Cards` (card.dfy): the card, its accessors, mutators and transitions.
- `Lookup` (lookup.dfy): `getZoneNameFromString` and `getCard`.
- `Boards` (board.dfy): the game state as a value, `modStat`, `checkVictory`,
  `attack`.
- `Anthems` (anthems.dfy): `anthem` and `applyAnthems`.
- `Effects` (effects.dfy): commands that change cards without moving them, and
  the per-turn passes.
- `Removals` (removal.dfy): kill, exile, sacrifice, bounce, `stateBased`.
- `Zones` (zones.dfy): draw, discard, play, move, reshuffle, mulligan, reset,
  next turn, and the pass after each command.
- `Game` (game.dfy): class `Game`, whose fields are the module-level lists and
  counters of play.py. Its methods update them step by step, with loops where
  the source loops. Each method is proved equal to the matching function of
  the modules above, and the properties are proved about those functions.

How the state is represented:
- Cards live in an arena, `cards: seq<Card>`. Every list holds indices into it,
  so a card's identity is its index, and the same card can be listed twice as
  in the source.
- A command that raises returns the state reached up to the raise, together
  with the error. Python does not roll back, so neither does the model.
- Exceptions:
  - `ZoneError`, `CardNotFoundError` and `CommandError` are the source's own.
  - Any other Python exception the source can raise (IndexError, ValueError,
    AttributeError, TypeError) is `Uncaught(name)`.
- `random.shuffle` is a parameter `rand` that may only reorder (`IsShuffler`).
  A counter of shuffles in the state makes successive shuffles independent.

Where the code does something other than its own comments and documentation describe, the model follows the code:
- The constructor replaces every backslash in the rules text with a newline
  (card.py:151), not only a backslash followed by a space.
- Drawing from an empty library stops silently. The `p2Win = True` at
  play.py:929 assigns a local variable, so no win is recorded
  (`Zones.Draw`, `Zones.DrawSucceeds`).
- A cost that fails the pattern raises `TypeError` with the source's message.

## Model

| member | source | states |
|---|---|---|
| Cards.NewCard | card.py:98-183 | Building a card succeeds exactly when the cost is valid and the power and toughness its type reads are numbers. A bad cost raises the TypeError first; a bad number then raises ValueError. A new creature keeps the numbers written. A new card is in the library, and every keyword it records is one of the game's keywords. |
| Cards.BuildAcceptsCost | card.py:99-119 | The cost is accepted iff it matches the mana-cost pattern or is "TRANSFORM". Otherwise the result is the TypeError "Mana cost for <name> is formatted incorrectly.". The colour is the space-joined names White, Blue, Black, Red, Green of the letters present, or "Colorless". |
| Cards.BuildReadsStats | card.py:131-136 | With a valid cost, the constructor raises ValueError iff a creature's power or toughness, or a planeswalker's power, is not a number. A creature keeps both numbers, a planeswalker starts with its power as loyalty, and a non-creature stores no power or toughness. |
| Cards.BuildDecimalStats | card.py:131-134 | A creature whose positive power and toughness are written in decimal is built with exactly those numbers. |
| Cards.FreshCard | card.py:121-183 | A new card is in the library, untapped, not a commander, with no modifications. It can morph iff it has printed Morph or Megamorph. Turning it face down then shows a colourless card named Morph, and turning it twice restores it. Its counters are the starting loyalty. |
| Cards.PowerLaw | card.py:439-493 | Power and toughness are None iff the card's own type line lacks Creature. They raise AttributeError iff a creature that is transformed or face down reads them from a back face that is not a creature; the constructor gives only creatures these attributes (card.py:132-134). Otherwise each is the shown face's base plus powerMod/toughnessMod, the anthem bonus and the +1/+1 counters, floored at zero. |
| Cards.ShownCreatureHasStats | card.py:439-501 | A creature whose shown type line also says Creature always has a readable power and toughness. |
| Cards.ModPowerGuarded | card.py:567-569 | On a creature on the battlefield, raw power changes by exactly n. On any other card nothing changes. Only powerMod is touched. |
| Cards.ModToughnessGuarded | card.py:574-576 | The same guard and effect for toughness. |
| Cards.ModPlusOneGuarded | card.py:560-562 | On a creature on the battlefield, power and toughness both change by n, and counters change by the change in the absolute +1/+1 count. Elsewhere nothing changes. |
| Cards.ModCountersFloor | card.py:537-542 | Off the battlefield nothing changes. On it, loyalty plus countersMod never drops below zero, and the change is exactly n when that stays non-negative. Nothing but countersMod changes. |
| Cards.ModKeywordsRefused | card.py:547-555 | A keyword the card already has, Morph, Megamorph, or a word that is not a keyword leaves the card unchanged. |
| Cards.ModKeywordsGranted | card.py:547-555 | Any other keyword is appended to the card's keywords. Haste clears summoning sickness. Nothing else changes. |
| Cards.PlayRouting | card.py:621-632 | An Instant or Sorcery goes to Exile if its text says "Exile <name>", else to the Graveyard, and only its zone changes. Another permanent type goes to the Battlefield and runs `enter`: it is tapped if the text says it enters tapped, and it loses sickness only for an exact "Creature" type line with printed Haste. Any other card is unchanged. |
| Cards.EndTurnKeepsCounters | card.py:646-649 | End of turn clears temporary power, toughness and keywords. It keeps +1/+1 counters and countersMod, and so the counter total. Applying it twice is the same as once. |
| Cards.TapLaws | card.py:654-656 | Tapping sets the flag only on the battlefield and changes nothing else. |
| Cards.UntapLaws | card.py:661-662 | Untapping always clears the flag, changes nothing else, and undoes a tap. |
| Cards.LeaveResets | card.py:698-706 | Leaving the battlefield zeroes powerMod, toughnessMod and countersMod and untaps the card. It keeps +1/+1 counters, keyword changes, the zone and the face-down flag. It flips the transformed flag of a transform card that is transformed or face down. A creature without printed Haste becomes sick; otherwise sickness is kept. |
| Cards.FaceDownMorphStaysFaceDown | card.py:698-706 | A face-down card that is not a transform card stays face down and keeps showing the same face when it leaves. |
| Cards.TransformKeepsMods | card.py:746-748 | Transforming a linked transform card swaps the base power and toughness for the back face's, keeps every modification and keyword, and is its own inverse. |
| Cards.MoveRules | card.py:718-741 | A move fails (always with ZoneError) iff the card is not the commander and is either an emblem sent anywhere but the battlefield or a non-emblem sent to the command zone. A successful move ends in the destination: the command zone for a commander unless it goes to the hand or battlefield. The leave reset happens exactly when the card goes from the battlefield elsewhere. The commander never fails. |
| Cards.MoveValue | card.py:718-741 | The card a successful move returns: the leave reset of the card in its new zone when it leaves the battlefield, otherwise the card with only its zone changed. |
| Cards.LinkBackSideLinks | card.py:791-806 | After linking, a transform or split card reports itself linked. A split card's name becomes "front/back", and any other card keeps its face. A transformed card then shows the other face's name. |
| Cards.CopyIsToken | card.py:1058-1072 | The copy's type line contains Token. Copying a copy changes nothing more. Only the face differs from the original. |
| Cost.CostBodyIsGrammar | card.py:85 | The character-by-character reading of the cost agrees, both ways, with splitting it into an optional X, a run of digits and a run of mana letters. |
| Cost.ColourOfIsJoinedNames | card.py:105-119 | The colour is the colour names of the letters present, joined with spaces, or "Colorless" when none is present. |
| Cost.TransformSentinelIsRed | card.py:99-119 | A back face built with the "TRANSFORM" sentinel cost is Red, because the sentinel contains an R. |
| Text.SplitJoin | card.py:195-198 | Splitting on a separator and joining again gives back the text. No part contains the separator, and there is one more part than separators. |
| Text.RStripPrefix | card.py:202 | `rstrip` removes a trailing run of white space (space, tab, newline, carriage return, vertical tab, form feed) and nothing else: the result is a prefix that does not end in white space. |
| RulesText.ScanClausesIsFilter | card.py:199-206 | Scanning a line's clauses keeps exactly the clauses that are keywords, and the line stays valid iff every clause is a keyword. |
| RulesText.ScanLineEffect | card.py:198-209 | One line appends its keyword clauses to the accumulated list. While every line so far is valid, the whole accumulated list is re-appended to the card's keywords. |
| RulesText.InvalidLineSticks | card.py:196-209 | Once a line is invalid, no later line adds keywords: the flag is never reset. |
| RulesText.KeywordClausesAreKeywords | card.py:203-204 | Only keywords are ever recorded from a line. |
| RulesText.ScanLinesKeywords | card.py:194-209 | The accumulated list and the card's keywords hold only keywords. |
| RulesText.PrintedKeywordsAreKeywords | card.py:194-209 | Every printed keyword found in the text is one of the game's keywords. |
| RulesText.SingleValidLine | card.py:194-209 | For a single line of keywords, the printed keywords are exactly its clauses. |
| RulesText.ValidLinesReappend | card.py:194-209 | For two valid lines a and b, the keywords are a followed by a + b: the first line's keywords are recorded twice. |
| RulesText.InvalidFirstLine | card.py:194-209 | An invalid first line disables every later line, so no printed keyword is recorded. |
| RulesText.MorphFromNone | card.py:213-214 | The Morph search finds nothing iff no position matches "Morph" or "Megamorph ". |
| RulesText.MorphFromLeftmost | card.py:213-220 | A found match is the leftmost, and it records Morph or Megamorph according to which alternative matched there. |
| RulesText.MorphSearchFinds | card.py:213-223 | The search finds nothing iff the text contains neither "Morph" nor "Megamorph ". Otherwise it reports the leftmost match's keyword. |
| RulesText.KeywordsOfAreKeywords | card.py:194-223 | The keyword list the parser builds, Morph included, holds only keywords. |
| RulesText.ParseKeywords | card.py:194-223 | The parser's loops over lines and clauses, then the Morph search, compute exactly the keyword list. |
| RulesText.PtMatchRoundTrip | card.py:293-302 | Reading a signed "+P/+T" word gives back the numbers that were written. |
| RulesText.AnthemDiscarded | card.py:243-253 | A matched clause gives an anthem iff it neither contains "until end of turn" nor appears quoted in the text. Otherwise the card has no anthem. |
| RulesText.AnthemOtherFirst | card.py:254-261 | A leading "Other" becomes the first affected type, and the types follow from the remaining words. |
| RulesText.AffectedTypesStop | card.py:269-273 | The words after "you" or "get" do not contribute types. |
| RulesText.AffectedTypesAre | card.py:269-290 | Every affected type comes from a word of the clause other than "and", stripped of its comma and plural s and capitalised. |
| RulesText.AnthemWordsNonEmpty | card.py:254-257 | A clause ending in a full stop has at least one word after the empty word is dropped. |
| RulesText.GrantedKeywordsIn | card.py:306-311 | A keyword is granted iff its lower-case form occurs in the clause. |
| RulesText.AnthemKeywordsExact | card.py:306-311 | The anthem's keywords are exactly the keywords whose lower-case form occurs in the clause. |
| RulesText.ReadTypes | card.py:269-290 | The type loop computes the affected types. |
| RulesText.ReadBonus | card.py:293-303 | The bonus loop computes the first power/toughness word of the clause. |
| RulesText.ReadGranted | card.py:306-311 | The granted-keyword loop computes the granted keywords in table order. |
| RulesText.DecomposeAnthem | card.py:243-311 | The anthem decomposition computes the anthem descriptor. |
| RulesText.TokenType | card.py:1058-1072 | The token type-line loop computes the copy's type line. |
| RulesText.TokenTypeIdempotent | card.py:1058-1072 | Rewriting a token's type line again changes nothing. |
| RulesText.TokenTypeSaysToken | card.py:1058-1072 | The copy's type line always contains Token. |
| RulesText.TokenTypeOfTwoWords | card.py:1058-1072 | "Legendary Creature" becomes "Legendary Token Creature": Token goes after the supertypes. |
| Lookup.ZonesMatchingMembers | play.py:352-356 | A zone is a candidate iff its name contains the input, ignoring case. |
| Lookup.ZoneFromStringUnique | play.py:348-361 | A zone is returned iff it is the only zone whose name contains the input, ignoring case. |
| Lookup.GetZoneNameFromString | play.py:348-361 | The loop over the zones computes that unique zone, or nothing. |
| RulesText.ParseIntDecimal | play.py:267-271 | A trailing count written in decimal is read back as that number. |
| Lookup.MatchingMembers | play.py:304-336 | A card matches iff it is in the zone and its shown name equals the key (quoted) or contains it (unquoted), ignoring case. |
| Lookup.TypeNamedSound | play.py:280-284 | A type name found is never Emblem and equals the argument, ignoring case. |
| Lookup.NthOrLastPicks | play.py:308-336 | With no match there is no result. With more matches than the skip count, the result is the match after the skipped ones. Otherwise it is the last match. |
| Lookup.FindCardSound | play.py:265-340 | A card found lies in the searched zone, or is the revealed top of the library. A type found is not Emblem and names the argument, ignoring case. For a plain name (not a type, not "card", no revealed top) in a non-empty zone, the lookup fails iff no card in the zone matches. |
| Lookup.GetCard | play.py:265-340 | The lookup's loops compute the lookup function. |
| Lookup.SearchTypes | play.py:280-284 | The loop over card types finds the named type. |
| Lookup.SearchZone | play.py:304-336 | The loop over the zone returns the n-th match, or the last one. |
| Boards.Shuffle | play.py:1255-1256 | A shuffle permutes the library and changes nothing else but the shuffle count. |
| Boards.ModStatRefused | play.py:1003-1032 | An unknown player raises CommandError and changes nothing. An unknown stat for a known player changes nothing. |
| Boards.ModStatPlayerOne | play.py:1003-1016 | Life adds n and gives player two the win at life ≤ 0. Poison adds n and gives the win at ≥ 10. Commander damage adds n, subtracts n from life and gives the win above 20. Player two's numbers and player one's win flag are untouched. |
| Boards.ModStatPlayerTwo | play.py:1017-1030 | The same thresholds for player two, with player one's win flag. |
| Boards.CommanderDamageSkipsLifeCheck | play.py:1012-1016 | Commander damage lowers life without checking life ≤ 0. |
| Boards.CheckVictoryLaw | play.py:774-783 | The game is over iff it was over or either player has won. Nothing else changes, and a second check changes nothing. |
| Boards.ApplyIsModStats | play.py:866-868 | Dealing combat totals is the three modStat calls on player two, in order. |
| Boards.AttackDealsTotals | play.py:840-865 | When every attacker's power can be read, the attack taps each non-vigilant attacker. Damage is the attacker's power, doubled for double strike. It counts as poison for infect, as commander damage from the commander, and as normal damage otherwise. |
| Boards.AttackFails | play.py:849-862 | An attacker whose power cannot be read stops the attack with TypeError or AttributeError. The error is TypeError when no attacker lacks its back face's stats, and AttributeError when every attacker is a creature. |
| Boards.ApplyToPlayerTwo | play.py:866-868 | Player two loses normal plus commander damage in life and gains the poison and commander damage. The win flag follows the three thresholds. Player one and the cards are untouched. |
| Boards.AttackFrom | play.py:848-864 | The attack loop keeps the arena size. Its result is stated by AttackDealsTotals and AttackFails. |
| Anthems.GrantOfAccessors | card.py:322-365 | For a card with an anthem, the anthem accessors report the shown face's types, bonus and keywords. |
| Anthems.ReceiveTwice | card.py:519-533 | Receiving two anthem grants is receiving their sum. |
| Anthems.ReceiveKeepsFace | card.py:519-584 | Receiving a grant changes neither the face shown nor what a reset of the anthem bonuses gives. |
| Anthems.ResetKeepsFace | card.py:581-584 | Resetting the anthem bonuses keeps the face shown and is idempotent. |
| Anthems.AffectOnceHits | play.py:814-824 | A card receives a source's grant once iff some affected type occurs in its type, subtype or colour, ignoring case; otherwise it is unchanged. |
| Anthems.AnthemFrom | play.py:804-824 | One source's pass over the field keeps the arena size. Its effect is AnthemFromCounts. |
| Anthems.AnthemFromCounts | play.py:804-824 | After one source's pass, each card it hits has received the grant once per time it is listed on the field. The source itself is skipped under "Other", and a card that is not hit is unchanged. |
| Anthems.AnthemFromKeepsFaces | play.py:804-824 | One source's pass changes no card's shown face or reset state. |
| Anthems.ResetFrom | play.py:830-831 | The reset pass keeps the arena size. |
| Anthems.ResetFromCards | play.py:830-831 | The reset pass resets exactly the field cards. |
| Anthems.ApplyFrom | play.py:832-834 | The pass over the sources keeps the arena size. |
| Anthems.ApplyFromKeepsFaces | play.py:832-834 | Applying the sources changes no shown face and no reset state. |
| Anthems.ApplyFromTotal | play.py:832-834 | After every source is applied, each card holds exactly the sum of the grants that hit it. |
| Anthems.ApplyFromOffField | play.py:832-834 | Cards not on the field are untouched. |
| Anthems.ApplyAnthems | play.py:829-834 | applyAnthems keeps the board well formed. |
| Anthems.ApplyAnthemsEffect | play.py:829-834 | Only the arena changes. Each field card becomes its reset self plus the total grant of all anthem sources on the field, and every other card is unchanged. |
| Anthems.ApplyAnthemsKeepsFaces | play.py:829-834 | applyAnthems changes no shown face and no reset state. |
| Anthems.ApplyAnthemsIdempotent | play.py:829-834 | Running applyAnthems twice equals running it once. |
| Effects.ApplyOpKeepsIdentity | card.py:537-662 | No mutator reached by a command changes a card's shown face, zone or commander flag. |
| Effects.ForField | play.py:1263-1266 | The pass over field cards of a type keeps the arena size. |
| Effects.ForFieldCounts | play.py:1263-1266 | Each selected card is changed once per time it is listed on the field. Unselected cards are unchanged. |
| Effects.ForFieldOnce | play.py:1263-1266 | On a field without repeats, each selected field card is changed exactly once. |
| Effects.Adjust | play.py:1261-1268 | tap, untap, counters, power, toughness and plusone on one card or a type keep the board well formed. |
| Effects.AdjustEffect | play.py:1261-1268 | Only the arena changes. A named card gets the mutator once. For a type, each field card of that type gets it once per listing. |
| Effects.EndTurnAll | play.py:935-937 | The end-of-turn pass keeps the board well formed. |
| Effects.EndTurnAllEffect | play.py:935-937 | Exactly the field cards get end of turn, and their counter totals are kept. |
| Effects.IterateEndTurn | card.py:646-649 | End of turn applied repeatedly is end of turn once. |
| Effects.UntapAll | play.py:1307-1310 | The untap step keeps the board well formed. |
| Effects.UntapAllEffect | play.py:1307-1310 | Each field card untaps unless its text says "<name> doesn't untap during your untap step". Other cards are unchanged. |
| Effects.IterateUntapStep | play.py:1309-1310 | The untap test applied repeatedly is the test applied once. |
| Effects.UpkeepAll | play.py:1150-1151 | The upkeep pass keeps the board well formed. |
| Effects.UpkeepAllEffect | play.py:1150-1151 | Exactly the field cards get `nextTurn`. |
| Effects.IterateUpkeep | card.py:637-639 | `nextTurn` applied repeatedly is `nextTurn` once. |
| Effects.CopyToField | play.py:894-896 | copy keeps the board well formed. |
| Effects.CopyToFieldEffect | play.py:894-896 | copy adds one card at the end of the field and nothing else changes. The new card has the original's shown name, and is a token when the original shows its own face. |
| Removals.Deposit | play.py:1242-1245 | Putting a removed card away keeps the board well formed and touches neither arena nor field. |
| Removals.DepositLaws | play.py:1229-1245 | A token goes nowhere. A bounced card is appended to the hand. The commander never enters the graveyard or exile. Other cards go to the front of the graveyard (kill, sacrifice) or of exile. Library and deck are untouched. |
| Removals.DepositPile | play.py:1229-1245 | Putting a card away never drops a card from its pile, and adds the card unless it is a token, or the commander when it is not bounced. |
| Removals.TakeFromField | play.py:1243 | Taking a card from the field touches no card. |
| Removals.TakeFromFieldLaws | play.py:1243 | The field loses the first occurrence of the card, and it fails (ValueError) iff the card is not on the field. No other list changes. |
| Removals.RemoveCard | play.py:985-989 | Removing one card changes at most that card. On error the field is unchanged. |
| Removals.RemoveCardSpared | play.py:985 | Killing an indestructible card does nothing. |
| Removals.RemoveCardFailures | play.py:985-989 | A failed removal is either a ZoneError from the card's move with nothing changed, or a ValueError because the card was not on the field. |
| Removals.RemoveCardKeepsGrave | play.py:985-989 | Removing one card never takes a card out of the graveyard. |
| Removals.RemoveCardKeepsField | play.py:985-989 | Removing one card leaves the field count of every other card as it was. |
| Removals.RemoveCardLaws | play.py:985-989 | A successful removal is: move the card, take it off the field, put it away. |
| Removals.MoveOfType | play.py:974-979 | The first loop of a removal by type keeps the arena size and records only real handles. |
| Removals.MoveOfTypeRecords | play.py:974-979 | Only field cards are recorded for removal. |
| Removals.PickedMembers | play.py:974-979 | A card is picked by a removal by type iff it is listed, has the type, and is not spared (an indestructible card under kill). |
| Removals.MoveOfTypeRecordsPicked | play.py:974-979 | On a list without repeats, without error the first loop records exactly the picked cards, in list order. |
| Removals.MoveOfTypeMoves | play.py:974-979 | A card that is not picked is untouched. Without error, each picked card has been moved to the removal's zone. |
| Removals.DepositFrom | play.py:980-983 | The second loop changes neither the arena nor the library. |
| Removals.DepositFromOnlyRecorded | play.py:980-983 | A card newly in the graveyard, exile or hand was recorded, is not a token, and (for the graveyard and exile) is not the commander. |
| Removals.DepositFromEmptiesField | play.py:980-982 | Without error, exactly the recorded cards leave the field. |
| Removals.DepositFromPlaces | play.py:980-983 | Without error, a card already in the pile (graveyard, exile or hand by removal) stays there, and every recorded card that is not a token and not the commander (any card for bounce) ends in that pile. |
| Removals.DepositFromLeaves | play.py:980-982 | For a card listed at most once on the field, without error it is on the field afterwards iff it was and was not recorded. |
| Removals.RemoveOfType | play.py:972-983 | A removal by type keeps the board well formed. |
| Removals.RemoveOfTypeSweeps | play.py:972-983 | On a field without repeats, without error a card is on the field afterwards iff it was there and is not a non-spared card of the type: the sweep removes every such card and only those. |
| Removals.RemoveOfTypePlaces | play.py:972-983 | Without error, each swept card has made its move to the removal's zone, and lands in the pile unless it is then a token, or it is the commander and not bounced. |
| Removals.RemoveOfTypeFrame | play.py:972-983 | A card the sweep does not pick is unchanged. |
| Removals.Remove | play.py:971-989 | kill, exile, sacrifice and bounce of a card or a type keep the board well formed. |
| Removals.DoomedMembers | play.py:790-797 | A card is doomed iff it is on the field and is a creature with toughness 0 or a planeswalker with 0 counters. |
| Removals.KillAll | play.py:798-799 | Killing the doomed cards keeps the board well formed. |
| Removals.KillStep | play.py:971-989 | Killing one card changes no other card. An indestructible card is left as it was. A killed card leaves the field, lands in the kill zone and keeps its keywords and commander flag. |
| Removals.KillAllFrame | play.py:798-799 | A card outside the kill list, or an indestructible one, is unchanged. |
| Removals.KillAllKeepsSpared | play.py:798-799 | An indestructible field card stays on the field. |
| Removals.KillAllZones | play.py:798-799 | When no error is raised, each killed card that is not indestructible ends in its kill zone (graveyard, or command zone for the commander). |
| Removals.KillAllSettles | play.py:798-799 | Without error, a card that was off the field is untouched, stays off the field, and stays in the graveyard if it was there. |
| Removals.KillAllBuries | play.py:798-799 | Without error, a killed card listed once on the field and not indestructible leaves the field, and goes to the graveyard unless it is a token or the commander. |
| Removals.StateBased | play.py:789-799 | The state-based actions keep the board well formed. |
| Removals.StateBasedKills | play.py:789-799 | A card is doomed iff it is a dead creature or planeswalker on the field. When no error is raised, each doomed card without Indestructible ends in its kill zone. An indestructible field card stays on the field unchanged. |
| Removals.StateBasedBuries | play.py:789-799 | On a field without repeats, without error a dead creature or planeswalker without Indestructible leaves the field and, unless it is a token or the commander, is in the graveyard. |
| Zones.Draw | play.py:922-929 | Draw changes only the hand, library and cards. Without error, hand followed by library is unchanged and the hand grew by the number drawn. |
| Zones.Drawn | play.py:925-927 | One draw step moves the top card to the end of the hand. |
| Zones.DrawSucceeds | play.py:922-929 | Drawing succeeds whenever the cards to be drawn (n, at most the library size) are distinct and tagged Library. An empty library ends the draw silently, with no win recorded. |
| Zones.DrawMovesTop | play.py:922-929 | Under the same condition, the hand gains the first k library cards in order and the library keeps the rest, where k is the smaller of n and the library size. |
| Zones.DrawMovesCards | play.py:922-929 | Under the same condition, exactly the drawn cards are retagged Hand. |
| Zones.Discard | play.py:913-916 | Discard keeps the board well formed. |
| Zones.DiscardCard | play.py:914-916 | Discarding one card keeps the board well formed. |
| Zones.HandToGrave | play.py:915-916 | Moving the card from hand to graveyard keeps the board well formed. |
| Zones.DiscardEffect | play.py:913-916 | It succeeds iff the card is in the hand. The card gets its own discard, which retags a hand card Graveyard. On success the hand loses one copy of it and it goes to the front of the graveyard; otherwise hand and graveyard are unchanged. |
| Zones.Play | play.py:1158-1200 | Playing a type does nothing. A card that is not playable raises "<name> needs to be in your hand to play it." with nothing changed. Playing the commander from the command zone counts one command play. |
| Zones.Taken | play.py:1170-1182 | Before placing, the played card leaves the hand and the top of the library, and the command play is counted. |
| Zones.Counted | play.py:1172-1174 | The command-play count grows only for the commander played from the command zone. |
| Zones.Unlisted | play.py:1176-1180 | The played card leaves the hand if there, and the library top if it is that card. |
| Zones.PlaceAfterPlay | play.py:1184-1198 | Placing the played card keeps the hand and the command-play count. |
| Zones.Placed | play.py:1184-1192 | Placing by zone touches no card. |
| Zones.Returned | play.py:1193-1198 | Returning the card to the top or bottom of the library keeps the hand and the command-play count. |
| Zones.PlayFromHand | play.py:1158-1200 | Playing a hand card removes it from the hand and applies the card's play. A spell goes to the front of exile or of the graveyard. A permanent goes to the end of the field. Other lists are unchanged. |
| Zones.PlacedPlainly | play.py:1184-1189 | A card in the graveyard, exile, battlefield or hand zone is put at the front of the graveyard, the front of exile, the end of the field, or nowhere; no card and not the library changes. |
| Zones.TakeFrom | play.py:1061-1096 | Taking from a zone touches no card and changes the field only when the zone is the battlefield. |
| Zones.TakeFromRemoves | play.py:1093-1096 | Taking from the hand, field, exile, graveyard or library removes one copy of the card from that list and leaves every other list alone. Taking from the command zone changes nothing. |
| Zones.PutInto | play.py:1100-1119 | Inserting into a list touches no card. |
| Zones.MoveBetween | play.py:1056-1125 | move with resolved zones keeps the board well formed. |
| Zones.Searched | play.py:1061-1073 | The list searched by name holds only real handles. |
| Zones.MoveCard | play.py:1092-1123 | Moving a found card keeps the board well formed. |
| Zones.Retagged | play.py:1120-1123 | The command-zone check and the card's own move keep the board well formed. |
| Zones.Relocated | play.py:1093-1119 | Changing the lists touches no card. |
| Zones.MoveCmd | play.py:1047-1125 | move, from the typed zone names to the result, keeps the board well formed and the arena size. |
| Zones.MoveToCommandNotAtomic | play.py:1096-1122 | Moving a non-commander from the hand to the command zone raises, but only after the card left the hand. It ends in no list and keeps its old zone tag. |
| Zones.MoveCardLists | play.py:1120-1123 | The lists after move are those after relocation, whether or not the card's move fails. |
| Zones.MoveTokenVanishes | play.py:1092-1119 | A token leaves its source list and is inserted nowhere: hand, field, graveyard and exile are those after the removal, and the library holds the same cards (in the same order unless it was the source, which is shuffled). |
| Zones.MoveCardOutcome | play.py:1100-1123 | move succeeds iff the card's own move to its target succeeds (Top and Bottom mean the library for a non-token) and the target is not the command zone for a non-commander. On success exactly that card changes, to the moved card, and it ends in its destination. On failure no card changes. |
| Zones.MoveCardPlaces | play.py:1092-1119 | A non-token is appended to the hand, field or exile, or put at the front of the graveyard, and every other of these lists is as after the removal. The library gains the card exactly when the target is the library, its top or its bottom; the top or bottom position is stated when the library was not the source. |
| Zones.PutIntoPlaces | play.py:1102-1117 | The target list gains the card: at the end of the hand, field, exile or library bottom, at the front of the graveyard or library top, or anywhere in the library (shuffled) for the library itself. Every other list is unchanged. |
| Zones.GatherFrom | play.py:758-761 | Gathering the deck changes only the library and the cards. |
| Zones.GatherFromSucceeds | play.py:758-761 | Gathering fails iff some non-commander in the deck is an emblem. |
| Zones.GatherFromAppends | play.py:758-761 | Without error, the library gains the non-commanders of the deck in deck order. |
| Zones.Cleared | play.py:753-757 | Emptying the five lists keeps the board well formed. |
| Zones.Reshuffle | play.py:751-762 | After a reshuffle, hand, field, graveyard and exile are empty, and the counters and deck are kept. |
| Zones.ReshufflePermutes | play.py:751-762 | After a reshuffle, the library is a permutation of the non-commanders of the deck. |
| Zones.ReshuffleSucceeds | play.py:751-762 | A reshuffle fails iff the deck holds a non-commander emblem. |
| Zones.Mulligan | play.py:1131-1139 | A mulligan keeps the board well formed. |
| Zones.Redraw | play.py:1134-1139 | The mulligan redraw keeps the board well formed. |
| Zones.MulliganRefused | play.py:1133 | Outside turn 1 a mulligan does nothing. |
| Zones.MulliganRedeals | play.py:1131-1139 | On turn 1, when no emblem blocks the reshuffle, a mulligan counts one more mulligan and empties field, graveyard and exile. Without error, the hand then holds 7 - mulls cards (one more with a commander), but no more than the library held. |
| Zones.SendCommander | play.py:725-731 | Both players start at 40 life with a commander, else 20. |
| Zones.Restart | play.py:732-743 | Clearing the counters and flags keeps the board well formed. |
| Zones.Redeal | play.py:744-746 | The reshuffle, draw and turn count keep the board well formed. |
| Zones.Reset | play.py:711-746 | reset keeps the board well formed. |
| Zones.ResetStarts | play.py:711-746 | After a successful reset it is turn 1, with no mulligans, no command plays, no wins and the game not over. Both players are at the starting life with no poison or commander damage. Field, graveyard and exile are empty. |
| Zones.ResetDeals | play.py:711-746 | After a successful reset the hand holds seven cards, or the whole library if it is smaller, and hand and library together are the non-commanders of the deck. |
| Zones.SendCommanderKeepsPool | play.py:725-731 | Sending the commander to the command zone leaves the deck's other cards, the ones the reshuffle gathers, unchanged. |
| Zones.RedealDeals | play.py:743-744 | The reshuffle and opening draw deal the same opening hand from the deck. |
| Zones.OpeningHand | play.py:744 | Drawing seven into an empty hand takes the first seven library cards (or all of them) in order and keeps the rest. |
| Zones.NextTurn | play.py:1144-1152 | nextTurn keeps the board well formed. |
| Zones.Upkept | play.py:1146-1151 | The turn grows by one; library, hand and field are unchanged before the draw. |
| Zones.UpkeptCards | play.py:1146-1151 | Each field card gets end of turn, then the untap test, then `nextTurn`. Other cards are unchanged. |
| Zones.NextTurnDraws | play.py:1144-1152 | With a top card tagged Library and not on the field, the next turn succeeds, adds one to the turn and moves that card to the end of the hand. |
| Zones.Settle | play.py:2136-2137 | The pass after each command keeps the board well formed. |
| Game.Game.Draw | play.py:922-929 | The draw loop ends in `Zones.Draw`'s state and error: the hand gains the library's top cards in order. |
| Game.Game.DrawTop | play.py:925-927 | One draw step ends as `Zones.DrawTop` says: the top card moves to the end of the hand. |
| Game.Game.Pass | play.py:1263-1266 | The loop over the field leaves the cards as `Effects.ForField`: each selected card changes once per listing. |
| Game.Game.EndTurn | play.py:935-937 | The end-of-turn loop ends in `Effects.EndTurnAll`'s state. |
| Game.Game.UntapAll | play.py:1307-1310 | The untap loop ends in `Effects.UntapAll`'s state. |
| Game.Game.UpkeepAll | play.py:1150-1151 | The upkeep loop of nextTurn ends in `Effects.UpkeepAll`'s state. |
| Game.Game.Adjust | play.py:1261-1268 | tap, untap, counters, power, toughness and plusone on a card or type end in `Effects.Adjust`'s state. |
| Game.Game.NextTurn | play.py:1144-1152 | nextTurn ends in `Zones.NextTurn`'s state and error. |
| Game.Game.CountTurn | play.py:1147 | The turn grows by one and nothing else changes. |
| Game.Game.Shuffle | play.py:1255-1256 | shuffle ends in `Boards.Shuffle`'s state: the library is permuted. |
| Game.Game.Discard | play.py:913-916 | discard ends in `Zones.Discard`'s state and error. |
| Game.Game.DiscardCard | play.py:914-916 | The card's discard, then its move to the graveyard, end as `Zones.DiscardCard`. |
| Game.Game.HandToGrave | play.py:915-916 | Moving the card from hand to the front of the graveyard ends as `Zones.HandToGrave`. |
| Game.Game.Play | play.py:1158-1200 | play ends in `Zones.Play`'s state and error. |
| Game.Game.CountCommandPlay | play.py:1172-1174 | Counting a command-zone play of the commander ends as `Zones.Counted`. |
| Game.Game.Unlist | play.py:1176-1180 | Removing the played card from the hand and the library top ends as `Zones.Unlisted`. |
| Game.Game.PlaceAfterPlay | play.py:1184-1198 | Putting the played card in the list for its new zone ends as `Zones.PlaceAfterPlay`. |
| Game.Game.Place | play.py:1184-1192 | The graveyard, exile, battlefield and library cases end as `Zones.Placed`. |
| Game.Game.ReturnToLibrary | play.py:1193-1198 | The Bottom and Top cases end as `Zones.Returned`. |
| Game.Game.Move | play.py:1047-1125 | move ends in `Zones.MoveCmd`'s state and error. |
| Game.Game.Pick | play.py:1074-1089 | Choosing the card to move returns `Zones.Picked` of the state. |
| Game.Game.MoveCard | play.py:1092-1123 | Moving the chosen card ends as `Zones.MoveCard`. |
| Game.Game.Retag | play.py:1120-1123 | The command-zone check and the card's move end as `Zones.Retagged`. |
| Game.Game.Relocate | play.py:1093-1119 | The list updates of move end as `Zones.Relocated`. |
| Game.Game.TakeFrom | play.py:1093-1096 | `fromZone.remove(card)` ends as `Zones.TakeFrom`. |
| Game.Game.TakeFromOther | play.py:1093-1096 | The exile, graveyard and library cases of `fromZone.remove(card)` end as `Zones.TakeFrom`. |
| Game.Game.PutInto | play.py:1100-1119 | The insertion into the target list ends as `Zones.PutInto`. |
| Game.Game.PutInLibrary | play.py:1103-1111 | The library, top and bottom insertions end as `Zones.PutInto`. |
| Game.Game.PutOnPile | play.py:1112-1119 | The battlefield, hand, exile and graveyard insertions end as `Zones.PutInto`. |
| Game.Game.Reshuffle | play.py:751-762 | reshuffle ends in `Zones.Reshuffle`'s state and error. |
| Game.Game.Clear | play.py:753-757 | Emptying the five lists ends as `Zones.Cleared`. |
| Game.Game.EmptyPiles | play.py:755-757 | The graveyard, exile and field become empty and nothing else changes. |
| Game.Game.Gather | play.py:758-761 | The loop over the deck ends as `Zones.GatherFrom`. |
| Game.Game.GatherOne | play.py:759-761 | One deck card is moved to the library unless it is the commander, as `Zones.GatherOne`. |
| Game.Game.Mulligan | play.py:1131-1139 | mulligan ends in `Zones.Mulligan`'s state and error. |
| Game.Game.Redraw | play.py:1134-1139 | The mulligan count and the redraw end as `Zones.Redraw`. |
| Game.Game.Reset | play.py:711-746 | reset ends in `Zones.Reset`'s state and error. |
| Game.Game.Redeal | play.py:744-746 | The reshuffle, the opening draw and the turn count end as `Zones.Redeal`. |
| Game.Game.SendCommander | play.py:725-731 | Starting life and the commander's move to the command zone end as `Zones.SendCommander`. |
| Game.Game.Restart | play.py:732-743 | Resetting the counters and flags ends as `Zones.Restart`. |
| Game.Game.ClearCounters | play.py:732-735 | Poison and commander damage become zero and nothing else changes. |
| Game.Game.ClearFlags | play.py:736-743 | Both win flags and the game-over flag become false and nothing else changes. |
| Game.Game.ClearCounts | play.py:739-741 | Turn, mulligans and command plays become zero and nothing else changes. |
| Game.Game.ModStat | play.py:994-1032 | modStat ends in `Boards.ModStat`'s state and error. |
| Game.Game.ModStatOne | play.py:1003-1016 | Player one's life, poison and commander damage and player two's win flag change as `Boards.Bump` says. |
| Game.Game.ModStatTwo | play.py:1017-1030 | Player two's life, poison and commander damage and player one's win flag change as `Boards.Bump` says. |
| Game.Game.CheckVictory | play.py:774-783 | checkVictory ends in `Boards.CheckVictory`'s state. |
| Game.Game.Attack | play.py:840-868 | attack ends in `Boards.Attack`'s state and error. |
| Game.Game.Strike | play.py:848-864 | The attackers loop returns the cards, totals and error of `Boards.AttackFrom`. |
| Game.Game.Deal | play.py:866-868 | The three modStat calls on player two end as `Boards.Apply`. |
| Game.Game.Deposit | play.py:1244-1245 | Putting a removed card where it belongs ends as `Removals.Deposit`. |
| Game.Game.Remove | play.py:971-989 | kill, exile, sacrifice and bounce, of a card or a type, end in `Removals.Remove`'s state and error. |
| Game.Game.RemoveCard | play.py:985-989 | Removing one card ends as `Removals.RemoveCard`. |
| Game.Game.TakeOut | play.py:986-989 | The card's move, then `field.remove`, then its deposit, end as `Removals.TakeOut`. |
| Game.Game.TakeFromField | play.py:987 | `field.remove(card)` ends as `Removals.TakeFromField`. |
| Game.Game.RemoveOfType | play.py:972-983 | Removing every field card of a type ends as `Removals.RemoveOfType`. |
| Game.Game.MoveOfType | play.py:974-979 | The first loop (move and record) returns `Removals.MoveOfType`'s cards, records and error. |
| Game.Game.DepositAll | play.py:980-983 | The second loop (off the field, then deposit) ends as `Removals.DepositFrom`. |
| Game.Game.StateBased | play.py:789-799 | stateBased ends in `Removals.StateBased`'s state and error. |
| Game.Game.Doomed | play.py:790-797 | The collecting loop returns `Removals.Doomed`: the dead creatures and planeswalkers on the field. |
| Game.Game.KillAll | play.py:798-799 | The killing loop ends as `Removals.KillAll`. |
| Game.Game.AffectOnce | play.py:814-824 | The type loop for one anthem target returns `Anthems.AffectOnce`: the card receives the grant once or not at all. |
| Game.Game.Anthem | play.py:804-824 | anthem leaves the cards as `Anthems.AnthemFrom`. |
| Game.Game.ApplyAnthems | play.py:829-834 | applyAnthems ends in `Anthems.ApplyAnthems`'s state. |
| Game.Game.ResetAll | play.py:830-831 | The reset loop leaves the cards as `Anthems.ResetFrom`. |
| Game.Game.ApplyAll | play.py:832-834 | The loop over anthem sources leaves the cards as `Anthems.ApplyFrom`. |
| Game.Game.Settle | play.py:2136-2137 | applyAnthems, then stateBased, end as `Zones.Settle`. |
| Game.Game.Copy | play.py:894-896 | copy ends in `Effects.CopyToField`'s state. |

Every `Game.Game` method's contract equates the new state, and the raised
error, with the old state under the function named in the same module row
above. The properties proved about that function therefore hold of the method.

## Left out

- Card: a card is a value kept in an arena slot, not an object updated in place. Each mutator returns the new card, and the game overwrites the card's slot. Identity is the arena index, so several lists naming one card behave as in the source. A card's back face is stored as a copy of its printed face, which never changes after linking.
- Cards.Shown: when a card is transformed or face down but has no back face, the source raises AttributeError. The model reads the card's own face instead. Only a card flagged as transform or split without a link can reach this.
- Cards.FaceOf: a non-creature's power and toughness are stored as 0, where the source never sets these attributes. The stored 0 is never read as power: `Cards.Power` and `Cards.Toughness` return None for a non-creature, and raise AttributeError for a creature reading a non-creature back face.
- Regular-expression search: the anthem and keyword-only patterns (card.py:233-241) are not modelled as a search. Their result, the matched clause if any, is the constructor parameter `clause`, and only its decomposition is modelled. The Morph search and the mana-cost pattern are modelled exactly.
- random.shuffle: it is a parameter that may only reorder the library. Nothing is assumed about the order it produces.
- Text: lower-casing, capitalising and white space follow Python for ASCII only. No Unicode case folding is modelled.
- RulesText.ParseInt: `int()` is modelled for an optional sign followed by decimal digits. Python also accepts surrounding white space; such a power, toughness or count is read as ValueError here.
- Console output: `boardstate`, `header`, `formatHeaderLine`, `printZone`, `printDecklist`, `printLibrary` and the card printing helpers produce output only. `checkVictory`'s print and `printZone`'s setting of `revealed` are not modelled. `revealed` is a field of the state that commands only read.
- The command loop (`command`, `do`, `view`, the attacker prompt): this is I/O. Only its pass after a state-changing command is modelled (`Zones.Settle`).
- `load` and `buildTokens`: they read decklist files and use regular expressions. `buildEmblem` is not modelled either. Cards enter the model through `Cards.NewCard`.
- Broken or stub code that is not modelled:
  - `cmc` (it catches the wrong exception);
  - `mill` (it names a nonexistent zone);
  - `scry` and `top` (print only);
  - the enters-the-battlefield trigger stubs, which do nothing;
  - the commented-out `__eq__`;
  - `setColor`, `setType` and `setSubtype`, which no core operation calls.
- Cards.Draw: when the card is not in the library, the source's error path names an attribute Card does not have. The model returns that AttributeError as the error.
- `fetch`: it is `move` from the library to the hand, which is covered by `Zones.MoveCmd`.
- Boards.AttackFrom: the contract states only the arena size. The tapping and totals are stated by `Boards.AttackDealsTotals` and the failure by `Boards.AttackFails`.
- Zones.Mulligan: the contract states well-formedness only. The mulligan rule is stated by `Zones.MulliganRefused` and `Zones.MulliganRedeals`. That lemma's hand-size claim assumes no emblem blocks the reshuffle.
- Zones.Reset: the contract states well-formedness only. The starting state is stated by `Zones.ResetStarts`, the opening hand by `Zones.ResetDeals`. The final `boardstate()` print is not modelled.
- Zones.NextTurn: the contract states well-formedness only. The turn step is stated by `Zones.UpkeptCards` and `Zones.NextTurnDraws`, the latter only for a library whose top card can be drawn.
- Zones.MoveBetween: the contract states well-formedness only. The effect of moving a found card is stated by `Zones.MoveCardOutcome`, `Zones.MoveCardPlaces`, `Zones.MoveTokenVanishes` and `Zones.MoveToCommandNotAtomic`. How the card is found is `Lookup.FindCard` with its lemmas.
- Zones.MoveCardPlaces: when the card comes from the library, the source shuffles the library after removing it, so for a library target only the library's contents are stated, not the position. `Zones.MoveTokenVanishes` likewise states the library's contents only.
- Removals.RemoveOfTypeSweeps: this and `Removals.RemoveOfTypePlaces`, `Removals.RemoveOfTypeFrame` and `Removals.StateBasedBuries` assume no card is listed twice on the field. The source never lists a card twice there, but the model does not carry that as an invariant of the board.
