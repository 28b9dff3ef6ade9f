/** Item knowledge: dubious items, pseudo-ID feelings, ego inference, the
    "other" facts an item reveals, functional completeness of knowledge,
    and the per-item effect of the notice entry points (src/identify.c). */
module Identify {

  // ---------------------------------------------------------------------
  // Constants of the game's object layer
  // ---------------------------------------------------------------------

  /** Equipment slots of the inventory array (standard layout). */
  const InvenWield := 24
  const InvenLeft := 26
  const InvenRight := 27
  const InvenNeck := 28
  const InvenLite := 29
  const InvenFeet := 35

  /** Neutral values of the numeric properties. */
  const ResLevelBase := 100
  const BonusBase := 0
  const MultipleBase := 10

  /** Object flags; only the two the engine tests by name are spelled out. */
  datatype ObjFlag = ShowCurse | ShowMods | OtherObjFlag(code: nat)

  type CurseFlag = nat

  /** The "other" identification facts (IF_* flags), one per resist, slay
      and brand index plus the combat values and the damage dice. */
  datatype OtherFlag = Resist(j: nat) | Slay(j: nat) | Brand(j: nat) | ToH | ToD | ToA | AC | DdDs

  /** Bits of the item status mask that the engine reads or writes. */
  datatype Ident = Known | Worn | Cursed | Uncursed | KnowCurses | OtherIdent(bit: nat)

  /** One item instance. `wieldSlot`, `artifact`, `ego`, `cursed`, `weapon`
      and `armour` are the results of the game's item predicates
      (wield_slot, artifact_p, ego_item_p, cursed_p, is_weapon, is_armour). */
  datatype Item = Item(
    name2: nat,
    wieldSlot: int,
    artifact: bool,
    ego: bool,
    cursed: bool,
    weapon: bool,
    armour: bool,
    percentRes: seq<int>,
    bonusStat: seq<int>,
    bonusOther: seq<int>,
    multipleSlay: seq<int>,
    multipleBrand: seq<int>,
    toH: int,
    toD: int,
    toA: int,
    ac: int,
    flagsObj: set<ObjFlag>,
    flagsCurse: set<CurseFlag>,
    idObj: set<ObjFlag>,
    idCurse: set<CurseFlag>,
    idOther: set<OtherFlag>,
    ident: set<Ident>)

  /** Ego-item template (an entry of e_info). */
  datatype Ego = Ego(
    flagsObj: set<ObjFlag>,
    flagsCurse: set<CurseFlag>,
    percentRes: seq<int>,
    multipleSlay: seq<int>,
    multipleBrand: seq<int>,
    idObj: set<ObjFlag>,
    idCurse: set<CurseFlag>,
    idOther: set<OtherFlag>,
    everseen: bool)

  /** Pseudo-ID feelings. */
  datatype Feeling = FeelNone | Special | Perilous | Excellent | DubiousStrong | DubiousWeak
                   | GoodStrong | GoodWeak | Average

  /** A feeling together with the item after the status bits it set. */
  datatype Sensed = Sensed(feel: Feeling, item: Item)

  const UncursedBits: set<Ident> := {Uncursed, KnowCurses}

  // ---------------------------------------------------------------------
  // Knowledge bookkeeping
  // ---------------------------------------------------------------------

  /** Every known set of `o` is contained in the matching set of `r`. */
  predicate KnowledgeGrows(o: Item, r: Item) {
    o.idObj <= r.idObj && o.idCurse <= r.idCurse && o.idOther <= r.idOther && o.ident <= r.ident
  }

  /** `o` and `r` are the same item apart from what the player knows. */
  predicate SameActual(o: Item, r: Item) {
    r == o.(idObj := r.idObj, idCurse := r.idCurse, idOther := r.idOther, ident := r.ident)
  }

  predicate Wearable(o: Item) {
    o.wieldSlot >= 0 && o.wieldSlot != InvenLite
  }

  predicate Jewellery(slot: int) {
    slot == InvenRight || slot == InvenLeft || slot == InvenNeck
  }

  // ---------------------------------------------------------------------
  // item_dubious
  // ---------------------------------------------------------------------

  /** Some visible property is worse than neutral. */
  predicate NegativeProperty(o: Item, kindToH: int) {
    || (exists i :: 0 <= i < |o.percentRes| && o.percentRes[i] > ResLevelBase)
    || (exists i :: 0 <= i < |o.bonusStat| && o.bonusStat[i] < BonusBase)
    || (exists i :: 0 <= i < |o.bonusOther| && o.bonusOther[i] < BonusBase)
    || (exists i :: 0 <= i < |o.multipleSlay| && o.multipleSlay[i] < MultipleBase)
    || (exists i :: 0 <= i < |o.multipleBrand| && o.multipleBrand[i] < MultipleBase)
    || o.toH + o.toD < kindToH
    || o.toA < 0
  }

  /** item_dubious: a negative property, or (only when `unknown`) a curse.
      `kindToH` is the to-hit of the item's kind. */
  predicate ItemDubious(o: Item, kindToH: int, unknown: bool) {
    NegativeProperty(o, kindToH) || (unknown && o.cursed)
  }

  /** Asking with unknown curses counted is never less suspicious. */
  lemma DubiousIgnoringCursesImpliesDubious(o: Item, kindToH: int)
    ensures ItemDubious(o, kindToH, false) ==> ItemDubious(o, kindToH, true)
    ensures ItemDubious(o, kindToH, true) && !ItemDubious(o, kindToH, false) ==> o.cursed
  {
  }

  /** A combined to-hit and to-dam below the kind's to-hit is dubious even
      when the to-hit is the only negative value. */
  lemma DubiousByCombatBonus(o: Item, kindToH: int, unknown: bool)
    requires o.toH + o.toD < kindToH
    ensures ItemDubious(o, kindToH, unknown)
  {
  }

  // ---------------------------------------------------------------------
  // value_check_aux1 / value_check_aux2
  // ---------------------------------------------------------------------

  /** The heavy pseudo-ID method (value_check_aux1). */
  function ValueCheckAux1(o: Item, kindToH: int): (r: Sensed)
    ensures !Wearable(o) ==> r.feel == FeelNone
    ensures Wearable(o) && o.artifact ==> r.feel == Special
    ensures Wearable(o) && !o.artifact && o.ego ==>
              (r.feel == Perilous <==> ItemDubious(o, kindToH, true)) && r.feel in {Perilous, Excellent}
    ensures Wearable(o) && !o.artifact && !o.ego ==>
              (r.feel == DubiousStrong <==> ItemDubious(o, kindToH, true))
    ensures Wearable(o) && !o.artifact && !o.ego && !ItemDubious(o, kindToH, true) ==>
              r.feel in {GoodStrong, Average}
              && (r.feel == Average <==>
                    !(InvenLeft <= o.wieldSlot <= InvenNeck) && o.toA <= 0 && o.toH + o.toD <= 0)
    ensures InvenLeft <= o.wieldSlot <= InvenNeck ==> r.feel != Average
    ensures r.feel !in {DubiousWeak, GoodWeak}
    ensures r.item == o.(ident := if r.feel in {Excellent, GoodStrong, Average} then o.ident + UncursedBits else o.ident)
  {
    var slot := o.wieldSlot;
    if slot < 0 then Sensed(FeelNone, o)
    else if slot == InvenLite then Sensed(FeelNone, o)
    else if o.artifact then Sensed(Special, o)
    else if o.ego then
      (if ItemDubious(o, kindToH, true) then Sensed(Perilous, o)
       else Sensed(Excellent, o.(ident := o.ident + UncursedBits)))
    else if ItemDubious(o, kindToH, true) then Sensed(DubiousStrong, o)
    else
      var o' := o.(ident := o.ident + UncursedBits);
      if InvenLeft <= slot <= InvenNeck then Sensed(GoodStrong, o')
      else if o.toA > 0 then Sensed(GoodStrong, o')
      else if o.toH + o.toD > 0 then Sensed(GoodStrong, o')
      else Sensed(Average, o')
  }

  /** The light pseudo-ID method (value_check_aux2). */
  function ValueCheckAux2(o: Item, kindToH: int): (r: Sensed)
    ensures r.feel in {FeelNone, DubiousWeak, GoodWeak, Average}
    ensures r.feel == FeelNone <==> !Wearable(o)
    ensures r.feel == DubiousWeak <==> Wearable(o) && ItemDubious(o, kindToH, true)
    ensures r.feel == Average <==>
              Wearable(o) && !ItemDubious(o, kindToH, true) && !o.artifact && !o.ego && o.toA <= 0 && o.toH + o.toD <= 0
    ensures r.item == o.(ident := if r.feel in {GoodWeak, Average} then o.ident + UncursedBits else o.ident)
  {
    var slot := o.wieldSlot;
    if slot < 0 then Sensed(FeelNone, o)
    else if slot == InvenLite then Sensed(FeelNone, o)
    else if ItemDubious(o, kindToH, true) then Sensed(DubiousWeak, o)
    else
      var o' := o.(ident := o.ident + UncursedBits);
      if o.artifact then Sensed(GoodWeak, o')
      else if o.ego then Sensed(GoodWeak, o')
      else if o.toA > 0 then Sensed(GoodWeak, o')
      else if o.toH + o.toD > 0 then Sensed(GoodWeak, o')
      else Sensed(Average, o')
  }

  /** The two methods agree on what they call bad: for anything but an
      artifact, the heavy method reports a bad feeling exactly when the
      light one does, and both leave the same knowledge behind. */
  lemma {:induction false} HeavyAndLightAgree(o: Item, kindToH: int)
    requires !o.artifact
    ensures ValueCheckAux1(o, kindToH).feel in {Perilous, DubiousStrong}
            <==> ValueCheckAux2(o, kindToH).feel == DubiousWeak
    ensures ValueCheckAux1(o, kindToH).item == ValueCheckAux2(o, kindToH).item
  {
    var h, l := ValueCheckAux1(o, kindToH), ValueCheckAux2(o, kindToH);
    if Wearable(o) && !ItemDubious(o, kindToH, true) {
      assert h.feel in {Excellent, GoodStrong, Average};
      assert l.feel in {GoodWeak, Average};
    }
  }

  // ---------------------------------------------------------------------
  // has_ego_properties / label_as_ego
  // ---------------------------------------------------------------------

  /** has_ego_properties: does what is known prove the item's ego type? */
  predicate HasEgoProperties(o: Item, egos: seq<Ego>)
    requires o.name2 < |egos|
  {
    var e := egos[o.name2];
    if o.name2 == 0 then false
    else if Known in o.ident then true
    else if !e.everseen then false
    else e.idCurse * o.idCurse != {} || e.idObj * o.idObj != {} || e.idOther * o.idOther != {}
  }

  /** Ego inference only ever switches on as knowledge grows. */
  lemma HasEgoMonotone(o: Item, r: Item, egos: seq<Ego>)
    requires o.name2 < |egos| && SameActual(o, r) && KnowledgeGrows(o, r)
    ensures HasEgoProperties(o, egos) ==> HasEgoProperties(r, egos)
  {
    var e := egos[o.name2];
    assert e.idCurse * o.idCurse <= e.idCurse * r.idCurse;
    assert e.idObj * o.idObj <= e.idObj * r.idObj;
    assert e.idOther * o.idOther <= e.idOther * r.idOther;
  }

  /** The resist, slay and brand facts in which an ego template deviates
      from neutral. */
  function EgoOtherFlags(e: Ego): set<OtherFlag> {
    (set j | 0 <= j < |e.percentRes| && e.percentRes[j] != ResLevelBase :: Resist(j))
    + (set j | 0 <= j < |e.multipleSlay| && e.multipleSlay[j] != MultipleBase :: Slay(j))
    + (set j | 0 <= j < |e.multipleBrand| && e.multipleBrand[j] != MultipleBase :: Brand(j))
  }

  /** label_as_ego, knowledge part: the ego's object flags, its curses when
      it shows them, and its deviating resists, slays and brands become known. */
  function LabelAsEgo(o: Item, e: Ego): (r: Item)
    ensures SameActual(o, r) && KnowledgeGrows(o, r) && r.ident == o.ident
    ensures e.flagsObj <= r.idObj && r.idObj <= o.idObj + e.flagsObj
    ensures ShowCurse in e.flagsObj ==> e.flagsCurse <= r.idCurse && r.idCurse <= o.idCurse + e.flagsCurse
    ensures ShowCurse !in e.flagsObj ==> r.idCurse == o.idCurse
    ensures forall j :: 0 <= j < |e.percentRes| && e.percentRes[j] != ResLevelBase ==> Resist(j) in r.idOther
    ensures forall j :: 0 <= j < |e.multipleSlay| && e.multipleSlay[j] != MultipleBase ==> Slay(j) in r.idOther
    ensures forall j :: 0 <= j < |e.multipleBrand| && e.multipleBrand[j] != MultipleBase ==> Brand(j) in r.idOther
    ensures r.idOther <= o.idOther + EgoOtherFlags(e)
  {
    o.(idObj := o.idObj + e.flagsObj,
       idCurse := if ShowCurse in e.flagsObj then o.idCurse + e.flagsCurse else o.idCurse,
       idOther := o.idOther + EgoOtherFlags(e))
  }

  /** Labelling twice teaches nothing new. */
  lemma LabelAsEgoIdempotent(o: Item, e: Ego)
    ensures LabelAsEgo(LabelAsEgo(o, e), e) == LabelAsEgo(o, e)
  {
  }

  // ---------------------------------------------------------------------
  // flags_other / has_bonuses / known_really
  // ---------------------------------------------------------------------

  /** flags_other: every "other" fact the item would reveal if examined. */
  function FlagsOther(o: Item): (r: set<OtherFlag>)
    ensures DdDs in r
    ensures ToH in r <==> o.toH != 0 || o.weapon || ShowMods in o.flagsObj
    ensures ToD in r <==> o.toD != 0 || o.weapon || ShowMods in o.flagsObj
    ensures AC in r <==> o.ac != 0 || o.armour
    ensures AC in r ==> ToA in r
    ensures ToA in r <==> o.toA != 0 || o.armour || o.ac != 0
  {
    var showMods := ShowMods in o.flagsObj;
    (set j | 0 <= j < |o.percentRes| && o.percentRes[j] != ResLevelBase :: Resist(j))
    + (set j | 0 <= j < |o.multipleSlay| && o.multipleSlay[j] != MultipleBase :: Slay(j))
    + (set j | 0 <= j < |o.multipleBrand| && o.multipleBrand[j] != MultipleBase :: Brand(j))
    + (if o.toH != 0 || o.weapon || showMods then {ToH} else {})
    + (if o.toD != 0 || o.weapon || showMods then {ToD} else {})
    + (if o.toA != 0 || o.armour then {ToA} else {})
    + (if o.ac != 0 || o.armour then {AC, ToA} else {})
    + {DdDs}
  }

  /** A resist is listed exactly when the item's resistance level differs
      from the neutral one; likewise a slay or a brand for a multiplier
      other than the neutral one. */
  lemma FlagsOtherResist(o: Item, j: nat)
    ensures Resist(j) in FlagsOther(o) <==> j < |o.percentRes| && o.percentRes[j] != ResLevelBase
  {
  }

  lemma FlagsOtherSlay(o: Item, j: nat)
    ensures Slay(j) in FlagsOther(o) <==> j < |o.multipleSlay| && o.multipleSlay[j] != MultipleBase
  {
  }

  lemma FlagsOtherBrand(o: Item, j: nat)
    ensures Brand(j) in FlagsOther(o) <==> j < |o.multipleBrand| && o.multipleBrand[j] != MultipleBase
  {
  }

  /** has_bonuses: some stat or other bonus is nonzero. */
  predicate HasBonuses(o: Item) {
    (exists j :: 0 <= j < |o.bonusStat| && o.bonusStat[j] != 0)
    || (exists j :: 0 <= j < |o.bonusOther| && o.bonusOther[j] != 0)
  }

  /** known_really with the completeness tests the way its comments state
      them: every actual object flag and every "other" fact is known. */
  predicate KnownReally(o: Item, egos: seq<Ego>)
    requires o.name2 < |egos|
  {
    && (o.name2 != 0 ==> egos[o.name2].everseen)
    && o.flagsObj <= o.idObj
    && FlagsOther(o) <= o.idOther
    && (HasBonuses(o) ==> Worn in o.ident)
    && Known !in o.ident
    && o.wieldSlot >= 0
  }

  /** Each of the reasons known_really gives for "not yet". */
  lemma KnownReallyFalseCases(o: Item, egos: seq<Ego>)
    requires o.name2 < |egos|
    ensures o.name2 != 0 && !egos[o.name2].everseen ==> !KnownReally(o, egos)
    ensures HasBonuses(o) && Worn !in o.ident ==> !KnownReally(o, egos)
    ensures Known in o.ident ==> !KnownReally(o, egos)
    ensures o.wieldSlot < 0 ==> !KnownReally(o, egos)
    ensures DdDs !in o.idOther ==> !KnownReally(o, egos)
  {
  }

  // ---------------------------------------------------------------------
  // The per-item effect of the notice entry points
  // ---------------------------------------------------------------------

  /** The "Ego item?" step: if the new evidence changed the ego inference,
      label the item as its ego type. */
  function Promote(before: Item, after: Item, egos: seq<Ego>): Item
    requires before.name2 < |egos| && after.name2 == before.name2
  {
    if HasEgoProperties(before, egos) != HasEgoProperties(after, egos)
    then LabelAsEgo(after, egos[after.name2])
    else after
  }

  /** The ego inference switched from false to true. */
  predicate Promoted(o: Item, r: Item, egos: seq<Ego>)
    requires o.name2 < |egos| && r.name2 < |egos|
  {
    !HasEgoProperties(o, egos) && HasEgoProperties(r, egos)
  }

  lemma {:induction false} PromoteProperties(o: Item, mid: Item, egos: seq<Ego>)
    requires o.name2 < |egos| && SameActual(o, mid) && KnowledgeGrows(o, mid)
    ensures var r := Promote(o, mid, egos);
      SameActual(o, r) && KnowledgeGrows(mid, r)
      && (HasEgoProperties(o, egos) ==> HasEgoProperties(r, egos))
      && (Promoted(o, r, egos) ==> egos[o.name2].flagsObj <= r.idObj)
      && (!Promoted(o, r, egos) ==> r == mid)
  {
    var r := Promote(o, mid, egos);
    HasEgoMonotone(o, mid, egos);
    if HasEgoProperties(o, egos) != HasEgoProperties(mid, egos) {
      HasEgoMonotone(mid, r, egos);
      assert Promoted(o, r, egos);
    }
  }

  /** notice_curse on one item: the curse becomes known, and the item is
      marked cursed, only if the item really carries that curse. */
  function NoticeCurseItem(o: Item, curse: CurseFlag, egos: seq<Ego>): (r: Item)
    requires o.name2 < |egos|
    ensures SameActual(o, r) && KnowledgeGrows(o, r)
    ensures curse !in o.flagsCurse ==> r == o
    ensures curse in o.flagsCurse ==> curse in r.idCurse && Cursed in r.ident
    ensures curse in o.flagsCurse && !Promoted(o, r, egos) ==>
              r.idCurse == o.idCurse + {curse} && r.ident == o.ident + {Cursed}
    ensures HasEgoProperties(o, egos) ==> HasEgoProperties(r, egos)
    ensures Promoted(o, r, egos) ==> egos[o.name2].flagsObj <= r.idObj
    ensures !Promoted(o, r, egos) ==> r.idObj == o.idObj && r.idOther == o.idOther
  {
    if curse in o.flagsCurse then
      var mid := o.(idCurse := o.idCurse + {curse}, ident := o.ident + {Cursed});
      PromoteProperties(o, mid, egos);
      Promote(o, mid, egos)
    else o
  }

  /** notice_obj on one item: the flag becomes known unconditionally. */
  function NoticeObjItem(o: Item, flag: ObjFlag, egos: seq<Ego>): (r: Item)
    requires o.name2 < |egos|
    ensures SameActual(o, r) && KnowledgeGrows(o, r)
    ensures flag in r.idObj
    ensures HasEgoProperties(o, egos) ==> HasEgoProperties(r, egos)
    ensures Promoted(o, r, egos) ==> egos[o.name2].flagsObj <= r.idObj
    ensures !Promoted(o, r, egos) ==> r.idObj == o.idObj + {flag} && r.idCurse == o.idCurse
                                      && r.idOther == o.idOther && r.ident == o.ident
  {
    var mid := o.(idObj := o.idObj + {flag});
    PromoteProperties(o, mid, egos);
    Promote(o, mid, egos)
  }

  /** After notice_obj the ego is inferred exactly when it already was, or
      when the ego type has been seen and declares the noticed flag. */
  lemma NoticeObjInfersEgo(o: Item, flag: ObjFlag, egos: seq<Ego>)
    requires o.name2 < |egos|
    ensures HasEgoProperties(NoticeObjItem(o, flag, egos), egos) <==>
              HasEgoProperties(o, egos) ||
              (0 < o.name2 && egos[o.name2].everseen && flag in egos[o.name2].idObj)
  {
    var e, mid := egos[o.name2], o.(idObj := o.idObj + {flag});
    var r := NoticeObjItem(o, flag, egos);
    assert r == Promote(o, mid, egos);
    PromoteProperties(o, mid, egos);
    if flag in e.idObj {
      assert flag in e.idObj * mid.idObj;
    } else {
      assert e.idObj * mid.idObj == e.idObj * o.idObj;
    }
    if HasEgoProperties(o, egos) != HasEgoProperties(mid, egos) {
      assert r == LabelAsEgo(mid, e);
      HasEgoMonotone(mid, r, egos);
    }
  }

  /** What notice_other learns about one item from `flag`: the flag itself
      exactly when flags_other lists it for this item. */
  function OtherGain(o: Item, flag: OtherFlag): (r: set<OtherFlag>)
    ensures r <= {flag} && r <= FlagsOther(o)
    ensures r == {flag} <==> flag in FlagsOther(o)
  {
    match flag
    case Resist(j) => if j < |o.percentRes| && o.percentRes[j] != ResLevelBase then {flag} else {}
    case Slay(j) => if j < |o.multipleSlay| && o.multipleSlay[j] != MultipleBase then {flag} else {}
    case Brand(j) => if j < |o.multipleBrand| && o.multipleBrand[j] != MultipleBase then {flag} else {}
    case ToH => if o.toH != 0 || o.weapon || ShowMods in o.flagsObj then {ToH} else {}
    case ToD => if o.toD != 0 || o.weapon || ShowMods in o.flagsObj then {ToD} else {}
    case ToA => if o.toA != 0 || o.ac != 0 || o.armour then {ToA} else {}
    case AC => if o.ac != 0 || o.armour then {AC} else {}
    case DdDs => {DdDs}
  }

  /** notice_other on one item. */
  function NoticeOtherItem(o: Item, flag: OtherFlag, egos: seq<Ego>): (r: Item)
    requires o.name2 < |egos|
    ensures SameActual(o, r) && KnowledgeGrows(o, r)
    ensures flag in FlagsOther(o) ==> flag in r.idOther
    ensures HasEgoProperties(o, egos) ==> HasEgoProperties(r, egos)
    ensures Promoted(o, r, egos) ==> egos[o.name2].flagsObj <= r.idObj
    ensures !Promoted(o, r, egos) ==> r.idOther - o.idOther <= FlagsOther(o) * {flag}
                                      && r.idObj == o.idObj && r.idCurse == o.idCurse && r.ident == o.ident
  {
    var mid := o.(idOther := o.idOther + OtherGain(o, flag));
    PromoteProperties(o, mid, egos);
    Promote(o, mid, egos)
  }

  /** What the player-wide "other" set gains from a single-item
      notice_other: resists, slays and brands learnt on a jewellery slot. */
  function OtherPlayerGain(o: Item, flag: OtherFlag, slot: int): (r: set<OtherFlag>)
    ensures r <= OtherGain(o, flag)
    ensures !Jewellery(slot) || !(flag.Resist? || flag.Slay? || flag.Brand?) ==> r == {}
    ensures Jewellery(slot) && (flag.Resist? || flag.Slay? || flag.Brand?) ==> r == OtherGain(o, flag)
  {
    if Jewellery(slot) && (flag.Resist? || flag.Slay? || flag.Brand?) then OtherGain(o, flag) else {}
  }

  /** Noticing the same fact twice is the same as noticing it once. */
  lemma {:induction false} NoticeOtherIdempotent(o: Item, flag: OtherFlag, egos: seq<Ego>)
    requires o.name2 < |egos|
    ensures NoticeOtherItem(NoticeOtherItem(o, flag, egos), flag, egos) == NoticeOtherItem(o, flag, egos)
  {
    var r := NoticeOtherItem(o, flag, egos);
    assert OtherGain(r, flag) == OtherGain(o, flag);
    assert r.(idOther := r.idOther + OtherGain(r, flag)) == r;
  }

  lemma {:induction false} NoticeObjIdempotent(o: Item, flag: ObjFlag, egos: seq<Ego>)
    requires o.name2 < |egos|
    ensures NoticeObjItem(NoticeObjItem(o, flag, egos), flag, egos) == NoticeObjItem(o, flag, egos)
  {
    var r := NoticeObjItem(o, flag, egos);
    assert r.(idObj := r.idObj + {flag}) == r;
  }

  lemma {:induction false} NoticeCurseIdempotent(o: Item, curse: CurseFlag, egos: seq<Ego>)
    requires o.name2 < |egos|
    ensures NoticeCurseItem(NoticeCurseItem(o, curse, egos), curse, egos) == NoticeCurseItem(o, curse, egos)
  {
    var r := NoticeCurseItem(o, curse, egos);
    if curse in o.flagsCurse {
      assert r.(idCurse := r.idCurse + {curse}, ident := r.ident + {Cursed}) == r;
    }
  }

  /** Once an item is functionally known, notice_other has nothing left to
      teach about it unless it triggers the ego label. */
  lemma {:induction false} KnownReallyLeavesNothingToLearn(o: Item, flag: OtherFlag, egos: seq<Ego>)
    requires o.name2 < |egos| && KnownReally(o, egos)
    ensures OtherGain(o, flag) <= o.idOther
    ensures !Promoted(o, NoticeOtherItem(o, flag, egos), egos) ==> NoticeOtherItem(o, flag, egos) == o
  {
    var r := NoticeOtherItem(o, flag, egos);
    var mid := o.(idOther := o.idOther + OtherGain(o, flag));
    assert mid == o;
    PromoteProperties(o, mid, egos);
  }
}
