/**
 * Finding cards and zones from what the player typed (play.py, getCard and
 * getZoneNameFromString). Each lookup is a method with the source's loop,
 * proved equal to a pure definition that the game rules use.
 */
module Lookup {
  import opened Wrappers
  import opened Lists
  import opened Text
  import opened Cost
  import opened RulesText
  import opened Cards

  // ---------------------------------------------------------------------------
  // Zone names (play.py:348-361)
  // ---------------------------------------------------------------------------

  /** The typed string, lowered, occurs in the lowered zone name. */
  predicate ZoneMatches(s: string, z: Zone)
  {
    Contains(Lower(ZoneName(z)), Lower(s))
  }

  /** The zones of `zs` the string fits, in order. */
  function ZonesMatching(s: string, zs: seq<Zone>): seq<Zone>
  {
    if zs == [] then []
    else
      var init := ZonesMatching(s, zs[..|zs| - 1]);
      if ZoneMatches(s, zs[|zs| - 1]) then init + [zs[|zs| - 1]] else init
  }

  /** The zone a string names: the only zone it fits, or nothing when it fits
      none or several. */
  function ZoneFromString(s: string): Option<Zone>
  {
    var ms := ZonesMatching(s, ZONES);
    if |ms| == 1 then Some(ms[0]) else None
  }

  lemma {:induction false} ZonesMatchingMembers(s: string, zs: seq<Zone>, z: Zone)
    ensures z in ZonesMatching(s, zs) <==> z in zs && ZoneMatches(s, z)
  {
    if zs != [] {
      var init := zs[..|zs| - 1];
      ZonesMatchingMembers(s, init, z);
      assert zs == init + [zs[|zs| - 1]];
    }
  }

  /** ZONES lists every zone, each once. */
  lemma ZonesListed(z: Zone)
    ensures z in ZONES && Distinct(ZONES)
  {
    match z
    case Battlefield => assert ZONES[0] == z;
    case Command => assert ZONES[1] == z;
    case Exile => assert ZONES[2] == z;
    case Graveyard => assert ZONES[3] == z;
    case Hand => assert ZONES[4] == z;
    case Library => assert ZONES[5] == z;
    case Top => assert ZONES[6] == z;
    case Bottom => assert ZONES[7] == z;
  }

  /** When only `z` fits, the matches among distinct zones are `z` alone if it
      is among them, else none. */
  lemma {:induction false} ZonesMatchingOnly(s: string, zs: seq<Zone>, z: Zone)
    requires Distinct(zs)
    requires forall y :: ZoneMatches(s, y) ==> y == z
    ensures ZonesMatching(s, zs) == if z in zs && ZoneMatches(s, z) then [z] else []
  {
    if zs != [] {
      var init := zs[..|zs| - 1];
      var y := zs[|zs| - 1];
      assert Distinct(init);
      ZonesMatchingOnly(s, init, z);
      assert zs == init + [y];
      assert y !in init;
    }
  }

  /** A string names a zone exactly when that zone is the only one it fits. */
  lemma ZoneFromStringUnique(s: string, z: Zone)
    ensures ZoneFromString(s) == Some(z) <==> ZoneMatches(s, z) && forall y :: ZoneMatches(s, y) ==> y == z
  {
    var ms := ZonesMatching(s, ZONES);
    ZonesMatchingMembers(s, ZONES, z);
    ZonesListed(z);
    if ZoneFromString(s) == Some(z) {
      forall y | ZoneMatches(s, y) ensures y == z {
        ZonesListed(y);
        ZonesMatchingMembers(s, ZONES, y);
      }
    }
    if ZoneMatches(s, z) && forall y :: ZoneMatches(s, y) ==> y == z {
      ZonesMatchingOnly(s, ZONES, z);
    }
  }

  /** The last element, if any. */
  function LastOf(ms: seq<Zone>): Option<Zone>
  {
    if ms == [] then None else Some(ms[|ms| - 1])
  }

  /** `getZoneNameFromString(string)`: one pass over ZONES, remembering the
      last zone fitted and whether an earlier one had already fitted. */
  method GetZoneNameFromString(s: string) returns (r: Option<Zone>)
    ensures r == ZoneFromString(s)
  {
    var ret: Option<Zone> := None;
    var valid := true;
    var i := 0;
    while i < |ZONES|
      invariant 0 <= i <= |ZONES|
      invariant valid <==> |ZonesMatching(s, ZONES[..i])| <= 1
      invariant ret == LastOf(ZonesMatching(s, ZONES[..i]))
    {
      assert ZONES[..i + 1][..i] == ZONES[..i];
      ghost var before := ZonesMatching(s, ZONES[..i]);
      var fits := ZoneMatches(s, ZONES[i]);
      assert ZonesMatching(s, ZONES[..i + 1]) == if fits then before + [ZONES[i]] else before;
      if fits {
        if ret.Some? {
          valid := false;
        }
        ret := Some(ZONES[i]);
      }
      i := i + 1;
    }
    assert ZONES[..i] == ZONES;
    if valid {
      return ret;
    }
    return None;
  }

  // ---------------------------------------------------------------------------
  // Card lookup (play.py:265-340)
  // ---------------------------------------------------------------------------

  /** What a lookup finds: one card of the arena, or a card type that the
      removal commands apply to every card of. */
  datatype Target = OneCard(handle: nat) | AllOfType(kind: CardType)

  /** Every handle of the zone names a card of the arena. */
  predicate Handles(cards: seq<Card>, zone: seq<nat>)
  {
    forall i :: 0 <= i < |zone| ==> zone[i] < |cards|
  }

  /** How many matches to pass over, and the name to look for: a trailing
      number n skips n - 1 matches (never fewer than none), otherwise the
      whole line is the name. */
  function ReadArgs(args: seq<string>): (nat, string)
    requires args != []
  {
    match ParseInt(args[|args| - 1])
    case Some(n) => (if n - 1 < 0 then 0 else n - 1, Join(args[..|args| - 1], " "))
    case None => (0, Join(args, " "))
  }

  /** A double-quoted name asks for an exact match. */
  predicate Quoted(s: string)
  {
    |s| > 2 && s[0] == '"' && s[|s| - 1] == '"'
  }

  function Unquoted(s: string): string
  {
    if Quoted(s) then s[1..|s| - 1] else s
  }

  /** The name test of the main search, ignoring case: equality for a quoted
      name, containment otherwise. */
  predicate NameMatches(name: string, key: string, exact: bool)
  {
    if exact then Lower(key) == Lower(name) else Contains(Lower(name), Lower(key))
  }

  /** The type named by the word, searching TYPES from index `i`; Emblem is
      never returned. */
  function TypeNamedFrom(s: string, i: nat): Option<CardType>
    requires i <= |TYPES|
    decreases |TYPES| - i
  {
    if i == |TYPES| then None
    else if Lower(s) == Lower(TypeName(TYPES[i])) && TYPES[i] != Emblem then Some(TYPES[i])
    else TypeNamedFrom(s, i + 1)
  }

  function TypeNamed(s: string): Option<CardType>
  {
    TypeNamedFrom(s, 0)
  }

  /** The handles of the zone whose shown name passes the test, in zone order. */
  function Matching(cards: seq<Card>, zone: seq<nat>, key: string, exact: bool): seq<nat>
    requires Handles(cards, zone)
  {
    if zone == [] then []
    else
      var init := Matching(cards, zone[..|zone| - 1], key, exact);
      var h := zone[|zone| - 1];
      if NameMatches(Name(cards[h]), key, exact) then init + [h] else init
  }

  function Last(ms: seq<nat>): Option<nat>
  {
    if ms == [] then None else Some(ms[|ms| - 1])
  }

  /** The match after `skip` others, or the last one when there are fewer. */
  function NthOrLast(ms: seq<nat>, skip: nat): Option<nat>
  {
    if ms == [] then None else Some(ms[if skip < |ms| then skip else |ms| - 1])
  }

  /** `getCard(args, zone, cmd)`. `special` is the source's test that the top
      of the library is revealed, the zone searched is the hand and the
      command is "play": then the top card of the library is offered first. */
  function FindCard(cards: seq<Card>, args: seq<string>, zone: seq<nat>, library: seq<nat>, special: bool): Result<Target>
    requires Handles(cards, zone) && Handles(cards, library)
  {
    if args == [] then Err(Uncaught("IndexError"))
    else
      var (skip, cardname) := ReadArgs(args);
      if cardname == "card" && zone != [] then Ok(OneCard(zone[0]))
      else if TypeNamed(cardname).Some? then Ok(AllOfType(TypeNamed(cardname).value))
      else if zone == [] then Err(CardNotFound(cardname))
      else if special && library == [] then Err(Uncaught("IndexError"))
      else if special && Quoted(cardname) && Unquoted(cardname) == Name(cards[library[0]]) then Ok(OneCard(library[0]))
      else if special && !Quoted(cardname) && Contains(Lower(Name(cards[library[0]])), cardname) then Ok(OneCard(library[0]))
      else
        var key := Unquoted(cardname);
        match NthOrLast(Matching(cards, zone, key, Quoted(cardname)), skip)
        case Some(h) => Ok(OneCard(h))
        case None => Err(CardNotFound(key))
  }

  lemma {:induction false} MatchingMembers(cards: seq<Card>, zone: seq<nat>, key: string, exact: bool, h: nat)
    requires Handles(cards, zone)
    ensures h in Matching(cards, zone, key, exact) <==> h in zone && h < |cards| && NameMatches(Name(cards[h]), key, exact)
  {
    if zone != [] {
      var init := zone[..|zone| - 1];
      MatchingMembers(cards, init, key, exact, h);
      assert zone == init + [zone[|zone| - 1]];
    }
  }

  lemma {:induction false} MatchingPrefix(cards: seq<Card>, zone: seq<nat>, key: string, exact: bool, i: nat)
    requires Handles(cards, zone) && i <= |zone|
    ensures Handles(cards, zone[..i])
    ensures Matching(cards, zone[..i], key, exact) <= Matching(cards, zone, key, exact)
    decreases |zone|
  {
    if i < |zone| {
      var init := zone[..|zone| - 1];
      assert zone[..i] == init[..i];
      MatchingPrefix(cards, init, key, exact, i);
    } else {
      assert zone[..i] == zone;
    }
  }

  /** A found card is in the zone searched (or is the revealed top of the
      library) and passes the name test; a card-not-found error in the main
      search means no card of the zone passes it. */
  lemma FindCardSound(cards: seq<Card>, args: seq<string>, zone: seq<nat>, library: seq<nat>, special: bool)
    requires Handles(cards, zone) && Handles(cards, library)
    ensures var r := FindCard(cards, args, zone, library, special);
            r.Ok? && r.value.OneCard? ==> r.value.handle in zone || (special && library != [] && r.value.handle == library[0])
    ensures var r := FindCard(cards, args, zone, library, special);
            r.Ok? && r.value.AllOfType? ==> r.value.kind != Emblem && Lower(ReadArgs(args).1) == Lower(TypeName(r.value.kind))
    ensures var r := FindCard(cards, args, zone, library, special);
            args != [] && !special && zone != [] && TypeNamed(ReadArgs(args).1).None? && ReadArgs(args).1 != "card" ==>
              (r.Err? <==> forall h :: h in zone ==> !NameMatches(Name(cards[h]), Unquoted(ReadArgs(args).1), Quoted(ReadArgs(args).1)))
  {
    if args != [] {
      var (skip, cardname) := ReadArgs(args);
      TypeNamedSound(cardname, 0);
      var key, exact := Unquoted(cardname), Quoted(cardname);
      var ms := Matching(cards, zone, key, exact);
      if ms != [] {
        var i := if skip < |ms| then skip else |ms| - 1;
        MatchingMembers(cards, zone, key, exact, ms[i]);
      }
      if !special && zone != [] && TypeNamed(cardname).None? && cardname != "card" {
        forall h | h in zone ensures h in ms <==> NameMatches(Name(cards[h]), key, exact) {
          MatchingMembers(cards, zone, key, exact, h);
        }
      }
    }
  }

  lemma {:induction false} TypeNamedSound(s: string, i: nat)
    requires i <= |TYPES|
    ensures TypeNamedFrom(s, i).Some? ==>
              TypeNamedFrom(s, i).value != Emblem && Lower(s) == Lower(TypeName(TypeNamedFrom(s, i).value))
    decreases |TYPES| - i
  {
    if i < |TYPES| {
      TypeNamedSound(s, i + 1);
    }
  }

  /** The main search returns the match after `skip` others, or the last match. */
  lemma NthOrLastPicks(ms: seq<nat>, skip: nat)
    ensures NthOrLast(ms, skip).None? <==> ms == []
    ensures skip < |ms| ==> NthOrLast(ms, skip) == Some(ms[skip])
    ensures |ms| <= skip && ms != [] ==> NthOrLast(ms, skip) == Last(ms)
  {
  }

  /** `getCard`, with the source's two loops: over TYPES, then over the zone,
      counting down the matches to skip. */
  method GetCard(cards: seq<Card>, args: seq<string>, zone: seq<nat>, library: seq<nat>, special: bool)
    returns (r: Result<Target>)
    requires Handles(cards, zone) && Handles(cards, library)
    ensures r == FindCard(cards, args, zone, library, special)
  {
    if args == [] {
      return Err(Uncaught("IndexError"));
    }
    var (skip, cardname) := ReadArgs(args);
    if cardname == "card" && zone != [] {
      return Ok(OneCard(zone[0]));
    }
    var t := SearchTypes(cardname);
    if t.Some? {
      return Ok(AllOfType(t.value));
    }
    if zone == [] {
      return Err(CardNotFound(cardname));
    }
    if special {
      if library == [] {
        return Err(Uncaught("IndexError"));
      }
      var top := Name(cards[library[0]]);
      if Quoted(cardname) {
        if Unquoted(cardname) == top {
          return Ok(OneCard(library[0]));
        }
      } else if Contains(Lower(top), cardname) {
        return Ok(OneCard(library[0]));
      }
    }
    var key, exact := Unquoted(cardname), Quoted(cardname);
    var found := SearchZone(cards, zone, key, exact, skip);
    match found
    case Some(h) => r := Ok(OneCard(h));
    case None => r := Err(CardNotFound(key));
  }

  /** The loop over TYPES. */
  method SearchTypes(s: string) returns (t: Option<CardType>)
    ensures t == TypeNamed(s)
  {
    var i := 0;
    while i < |TYPES|
      invariant 0 <= i <= |TYPES|
      invariant TypeNamedFrom(s, i) == TypeNamed(s)
    {
      if Lower(s) == Lower(TypeName(TYPES[i])) && TYPES[i] != Emblem {
        return Some(TYPES[i]);
      }
      i := i + 1;
    }
    return None;
  }

  /** The loop over the zone: stop at the match after `skip` others,
      remembering the last match seen in case there are fewer. */
  method SearchZone(cards: seq<Card>, zone: seq<nat>, key: string, exact: bool, skip: nat)
    returns (found: Option<nat>)
    requires Handles(cards, zone)
    ensures found == NthOrLast(Matching(cards, zone, key, exact), skip)
  {
    var ret: Option<nat> := None;
    var left := skip;
    var j := 0;
    while j < |zone|
      invariant 0 <= j <= |zone|
      invariant Handles(cards, zone[..j])
      invariant |Matching(cards, zone[..j], key, exact)| <= skip
      invariant left == skip - |Matching(cards, zone[..j], key, exact)|
      invariant ret == Last(Matching(cards, zone[..j], key, exact))
    {
      var h := zone[j];
      assert zone[..j + 1][..j] == zone[..j];
      if NameMatches(Name(cards[h]), key, exact) {
        if left == 0 {
          MatchingPrefix(cards, zone, key, exact, j + 1);
          return Some(h);
        }
        left := left - 1;
        ret := Some(h);
      }
      j := j + 1;
    }
    assert zone[..j] == zone;
    return ret;
  }
}
