/** Four places where src/identify.c does not do what its comments and the
    surrounding design say. Each is modelled here as written, next to a
    lemma that exhibits the difference; the corrected definitions live in
    module Identify and are the ones the notice engine uses. */
module IdentifyAsWritten {
  import opened Identify

  /** An unremarkable item worn in the left ring slot, used by the
      counterexamples below. */
  function PlainRing(): (r: Item)
    ensures r.name2 == 0 && Jewellery(r.wieldSlot) && !r.weapon && !r.armour
  {
    Item(0, InvenLeft, false, false, false, false, false,
         [], [], [], [], [], 0, 0, 0, 0, {}, {}, {}, {}, {}, {})
  }

  // ---------------------------------------------------------------------
  // known_really: the subset tests point the wrong way
  // ---------------------------------------------------------------------

  /** known_really as written: it gives up when the KNOWN set is contained
      in the ACTUAL set, which is the normal state of sound knowledge. */
  predicate KnownReallyAsWritten(o: Item, egos: seq<Ego>)
    requires o.name2 < |egos|
  {
    && (o.name2 != 0 ==> egos[o.name2].everseen)
    && !(o.idObj <= o.flagsObj)
    && !(o.idOther <= FlagsOther(o))
    && (HasBonuses(o) ==> Worn in o.ident)
    && Known !in o.ident
    && o.wieldSlot >= 0
  }

  /** As written, an item whose knowledge is exactly right is never
      reported as functionally known; only an item with a known fact it
      does not have can be. */
  lemma KnownReallyAsWrittenRejectsExactKnowledge(o: Item, egos: seq<Ego>)
    requires o.name2 < |egos|
    ensures o.idObj == o.flagsObj ==> !KnownReallyAsWritten(o, egos)
    ensures o.idOther == FlagsOther(o) ==> !KnownReallyAsWritten(o, egos)
    ensures KnownReallyAsWritten(o, egos) ==> exists f :: f in o.idObj && f !in o.flagsObj
  {
    if KnownReallyAsWritten(o, egos) {
      assert !(o.idObj <= o.flagsObj);
      var f :| f in o.idObj && f !in o.flagsObj;
    }
  }

  /** A ring whose every property is known: the corrected test accepts it,
      the test as written does not. */
  lemma KnownReallyCounterexample()
    ensures var o := PlainRing().(idOther := {DdDs});
            KnownReally(o, [Ego({}, {}, [], [], [], {}, {}, {}, true)])
            && !KnownReallyAsWritten(o, [Ego({}, {}, [], [], [], {}, {}, {}, true)])
  {
    var o := PlainRing().(idOther := {DdDs});
    assert FlagsOther(o) == {DdDs};
  }

  // ---------------------------------------------------------------------
  // notice_other: the bonus tests leave out cases flags_other lists
  // ---------------------------------------------------------------------

  /** What notice_other learns about one item, as written: the to-armour
      fact is learnt from a nonzero base armour class or an armour item,
      never from a nonzero to-armour bonus; to-hit and to-dam are learnt
      from a nonzero value or a weapon, never from the show-modifiers
      flag alone. */
  function OtherGainAsWritten(o: Item, flag: OtherFlag): (r: set<OtherFlag>)
    ensures r <= OtherGain(o, flag)
    ensures !flag.ToA? && !flag.ToH? && !flag.ToD? ==> r == OtherGain(o, flag)
    ensures r != OtherGain(o, flag) <==>
              || (flag == ToA && o.toA != 0 && o.ac == 0 && !o.armour)
              || (flag == ToH && o.toH == 0 && !o.weapon && ShowMods in o.flagsObj)
              || (flag == ToD && o.toD == 0 && !o.weapon && ShowMods in o.flagsObj)
  {
    match flag
    case ToA => if o.ac != 0 || o.armour then {ToA} else {}
    case ToH => if o.toH != 0 || o.weapon then {ToH} else {}
    case ToD => if o.toD != 0 || o.weapon then {ToD} else {}
    case _ => OtherGain(o, flag)
  }

  /** A ring with a to-armour bonus: flags_other lists the bonus, so the
      item cannot be functionally known until the bonus is, yet noticing the
      bonus as written teaches nothing. */
  lemma ToArmourCounterexample()
    ensures var o := PlainRing().(toA := 3);
            ToA in FlagsOther(o) && OtherGainAsWritten(o, ToA) == {} && OtherGain(o, ToA) == {ToA}
  {
  }

  /** A ring that shows its modifiers, with no to-hit bonus: flags_other
      lists the to-hit fact, yet noticing it as written teaches nothing. */
  lemma ShowModsCounterexample()
    ensures var o := PlainRing().(flagsObj := {ShowMods});
            ToH in FlagsOther(o) && OtherGainAsWritten(o, ToH) == {} && OtherGain(o, ToH) == {ToH}
  {
  }

  // ---------------------------------------------------------------------
  // notice_other, whole-body pass: the jewellery test uses the wrong index
  // ---------------------------------------------------------------------

  /** One resist step of the whole-body pass as written, on the item's and
      the player's known sets: the jewellery test compares the resist index,
      not the slot, with the jewellery slots, and then sets the item's bit a
      second time, so the player's set never changes. */
  function BodyResistStepAsWritten(o: Item, j: nat, player: set<OtherFlag>): (r: (set<OtherFlag>, set<OtherFlag>))
    ensures r.0 == o.idOther + OtherGain(o, Resist(j))
    ensures r.1 == player
  {
    if j < |o.percentRes| && o.percentRes[j] != ResLevelBase then
      var once := o.idOther + {Resist(j)};
      (if Jewellery(j) then once + {Resist(j)} else once, player)
    else (o.idOther, player)
  }

  /** A ring of resistance worn on the left hand: the single-item path
      teaches the player the resist, the whole-body pass as written does
      not, the corrected gain does. */
  lemma BodyPassCounterexample()
    ensures var o := PlainRing().(percentRes := [50]);
            BodyResistStepAsWritten(o, 0, {}).1 == {}
            && OtherPlayerGain(o, Resist(0), InvenLeft) == {Resist(0)}
  {
  }
}
