/** The notice entry points of src/identify.c: evidence about one item (an
    inventory slot or a floor item) or about every worn item is added to
    the items' known sets and, for jewellery slots, to the player-wide
    known sets. */
module IdentifyNotice {
  import opened Identify

  /** One piece of evidence, as passed to notice_curse, notice_obj or
      notice_other. */
  datatype Evidence = CurseSeen(curse: CurseFlag) | ObjSeen(flag: ObjFlag) | OtherSeen(other: OtherFlag)

  /** The per-item effect of a piece of evidence. */
  function NoticeItem(o: Item, ev: Evidence, egos: seq<Ego>): (r: Item)
    requires o.name2 < |egos|
    ensures r.name2 == o.name2
    ensures SameActual(o, r) && KnowledgeGrows(o, r)
    ensures Promoted(o, r, egos) ==> egos[o.name2].flagsObj <= r.idObj
  {
    match ev
    case CurseSeen(c) => NoticeCurseItem(o, c, egos)
    case ObjSeen(f) => NoticeObjItem(o, f, egos)
    case OtherSeen(f) => NoticeOtherItem(o, f, egos)
  }

  /** Noticing the same evidence twice is the same as noticing it once. */
  lemma NoticeItemIdempotent(o: Item, ev: Evidence, egos: seq<Ego>)
    requires o.name2 < |egos|
    ensures NoticeItem(NoticeItem(o, ev, egos), ev, egos) == NoticeItem(o, ev, egos)
  {
    match ev
    case CurseSeen(c) => NoticeCurseIdempotent(o, c, egos);
    case ObjSeen(f) => NoticeObjIdempotent(o, f, egos);
    case OtherSeen(f) => NoticeOtherIdempotent(o, f, egos);
  }

  class Game {
    /** p_ptr->inventory: pack slots followed by the equipment slots. */
    const inventory: array<Item>
    /** o_list: items lying in the dungeon. */
    const oList: array<Item>
    /** e_info: the ego templates (read-only here). */
    const egos: seq<Ego>
    /** p_ptr->id_obj and p_ptr->id_other: jewellery knowledge. */
    var idObj: set<ObjFlag>
    var idOther: set<OtherFlag>
    /** Items handed to identify_object, by item reference (slot + 1 for
        the inventory, minus the index for the floor). */
    ghost var identifyRequests: seq<int>

    ghost predicate Valid()
      reads this, inventory, oList
    {
      && inventory != oList
      && InvenFeet < inventory.Length
      && (forall i :: 0 <= i < inventory.Length ==> inventory[i].name2 < |egos|)
      && (forall i :: 0 <= i < oList.Length ==> oList[i].name2 < |egos|)
    }

    /** An item reference the notice functions can resolve. */
    predicate ValidTarget(item: int)
    {
      (item > 0 ==> item - 1 < inventory.Length) && (item < 0 ==> -item < oList.Length)
    }

    ghost function Request(o: Item, ref: int): seq<int>
      requires o.name2 < |egos|
    {
      if KnownReally(o, egos) then [ref] else []
    }

    /** The identify requests of the whole-body pass over slots lo..hi-1,
        given the items before the pass. */
    ghost function BodyRequests(before: seq<Item>, ev: Evidence, lo: int, hi: int): seq<int>
      requires 0 <= lo <= hi <= |before|
      requires forall i :: lo <= i < hi ==> before[i].name2 < |egos|
      decreases hi - lo
    {
      if hi == lo then []
      else BodyRequests(before, ev, lo, hi - 1) + Request(NoticeItem(before[hi - 1], ev, egos), hi)
    }

    /** The identify requests of a notice call on `item`, given the
        inventory and the floor items before the call: the one item
        referred to, or every worn slot in order. */
    ghost function Requests(inv: seq<Item>, floor: seq<Item>, ev: Evidence, item: int): seq<int>
      requires InvenFeet < |inv| && item - 1 < |inv| && (item < 0 ==> -item < |floor|)
      requires forall k :: 0 <= k < |inv| ==> inv[k].name2 < |egos|
      requires forall k :: 0 <= k < |floor| ==> floor[k].name2 < |egos|
    {
      if item > 0 then Request(NoticeItem(inv[item - 1], ev, egos), item)
      else if item < 0 then Request(NoticeItem(floor[-item], ev, egos), item)
      else BodyRequests(inv, ev, InvenWield, InvenFeet + 1)
    }

    /** `after` is `before` with the evidence applied to slots lo..hi-1. */
    ghost predicate Applied(before: seq<Item>, after: seq<Item>, ev: Evidence, lo: int, hi: int)
      requires forall k :: 0 <= k < |before| ==> before[k].name2 < |egos|
    {
      && |after| == |before|
      && forall k :: 0 <= k < |before| ==>
           after[k] == if lo <= k < hi then NoticeItem(before[k], ev, egos) else before[k]
    }

    lemma AppliedStep(before: seq<Item>, mid: seq<Item>, after: seq<Item>, ev: Evidence, lo: int, i: int)
      requires forall k :: 0 <= k < |before| ==> before[k].name2 < |egos|
      requires forall k :: 0 <= k < |mid| ==> mid[k].name2 < |egos|
      requires lo <= i < |before|
      requires Applied(before, mid, ev, lo, i) && Applied(mid, after, ev, i, i + 1)
      ensures Applied(before, after, ev, lo, i + 1)
    {
    }

    /** What a notice pass guarantees for every slot: the items themselves
        are unchanged and only grow in what the player knows about them. */
    lemma AppliedOnlyTeaches(before: seq<Item>, after: seq<Item>, ev: Evidence, lo: int, hi: int)
      requires forall k :: 0 <= k < |before| ==> before[k].name2 < |egos|
      requires Applied(before, after, ev, lo, hi)
      ensures forall k :: 0 <= k < |before| ==>
                SameActual(before[k], after[k]) && KnowledgeGrows(before[k], after[k])
    {
      forall k | 0 <= k < |before|
        ensures SameActual(before[k], after[k]) && KnowledgeGrows(before[k], after[k])
      {
        if !(lo <= k < hi) {
          assert after[k] == before[k];
        }
      }
    }

    /** A second pass with the same evidence over the same slots changes
        nothing. */
    lemma AppliedIdempotent(before: seq<Item>, mid: seq<Item>, after: seq<Item>, ev: Evidence, lo: int, hi: int)
      requires forall k :: 0 <= k < |before| ==> before[k].name2 < |egos|
      requires forall k :: 0 <= k < |mid| ==> mid[k].name2 < |egos|
      requires Applied(before, mid, ev, lo, hi) && Applied(mid, after, ev, lo, hi)
      ensures after == mid
    {
      forall k | 0 <= k < |mid|
        ensures after[k] == mid[k]
      {
        if lo <= k < hi {
          NoticeItemIdempotent(before[k], ev, egos);
        }
      }
    }

    /** Apply the evidence to one item of `a` and ask for identification if
        the item is now functionally known. */
    method NoticeAt(a: array<Item>, idx: int, ref: int, ev: Evidence)
      requires Valid() && (a == inventory || a == oList) && 0 <= idx < a.Length
      modifies a, this`identifyRequests
      ensures Valid()
      ensures Applied(old(a[..]), a[..], ev, idx, idx + 1)
      ensures identifyRequests == old(identifyRequests) + Request(a[idx], ref)
    {
      a[idx] := NoticeItem(a[idx], ev, egos);
      identifyRequests := identifyRequests + Request(a[idx], ref);
    }

    /** Apply the evidence to every worn item, slot by slot. */
    method NoticeBody(ev: Evidence)
      requires Valid()
      modifies inventory, this`identifyRequests
      ensures Valid()
      ensures Applied(old(inventory[..]), inventory[..], ev, InvenWield, InvenFeet + 1)
      ensures identifyRequests == old(identifyRequests) + BodyRequests(old(inventory[..]), ev, InvenWield, InvenFeet + 1)
    {
      ghost var before, requests := inventory[..], identifyRequests;
      for i := InvenWield to InvenFeet + 1
        invariant Valid()
        invariant Applied(before, inventory[..], ev, InvenWield, i)
        invariant identifyRequests == requests + BodyRequests(before, ev, InvenWield, i)
      {
        BodyStep(ev, i, before, requests);
      }
    }

    /** One worn slot of the whole-body pass: the evidence reaches slot i,
        and its identify request, if any, is added. */
    method BodyStep(ev: Evidence, i: int, ghost before: seq<Item>, ghost requests: seq<int>)
      requires Valid() && InvenWield <= i <= InvenFeet && |before| == inventory.Length
      requires forall k :: 0 <= k < |before| ==> before[k].name2 < |egos|
      requires Applied(before, inventory[..], ev, InvenWield, i)
      requires identifyRequests == requests + BodyRequests(before, ev, InvenWield, i)
      modifies inventory, this`identifyRequests
      ensures Valid()
      ensures Applied(before, inventory[..], ev, InvenWield, i + 1)
      ensures identifyRequests == requests + BodyRequests(before, ev, InvenWield, i + 1)
    {
      assert before[i] == inventory[i];
      ghost var mid := inventory[..];
      NoticeAt(inventory, i, i + 1, ev);
      AppliedStep(before, mid, inventory[..], ev, InvenWield, i);
      assert BodyRequests(before, ev, InvenWield, i + 1)
          == BodyRequests(before, ev, InvenWield, i) + Request(inventory[i], i + 1);
    }

    /** The slots of `a` an item reference designates, as a half-open range. */
    function Lo(item: int): int { if item > 0 then item - 1 else if item < 0 then -item else InvenWield }
    function Hi(item: int): int { if item == 0 then InvenFeet + 1 else Lo(item) + 1 }

    /** The shared part of notice_curse, notice_obj and notice_other: a
        positive reference names an inventory slot, a negative one a floor
        item, and zero every worn slot. */
    method NoticeItems(ev: Evidence, item: int)
      requires Valid() && ValidTarget(item)
      modifies inventory, oList, this`identifyRequests
      ensures Valid()
      ensures Applied(old(inventory[..]), inventory[..], ev, if item >= 0 then Lo(item) else 0, if item >= 0 then Hi(item) else 0)
      ensures Applied(old(oList[..]), oList[..], ev, if item < 0 then Lo(item) else 0, if item < 0 then Hi(item) else 0)
      ensures identifyRequests == old(identifyRequests) + Requests(old(inventory[..]), old(oList[..]), ev, item)
    {
      if item > 0 {
        NoticeAt(inventory, item - 1, item, ev);
      } else if item < 0 {
        NoticeAt(oList, -item, item, ev);
      } else {
        NoticeBody(ev);
      }
    }

    /** notice_curse. */
    method NoticeCurse(curse: CurseFlag, item: int)
      requires Valid() && ValidTarget(item)
      modifies inventory, oList, this`identifyRequests
      ensures Valid()
      ensures Applied(old(inventory[..]), inventory[..], CurseSeen(curse), if item >= 0 then Lo(item) else 0, if item >= 0 then Hi(item) else 0)
      ensures Applied(old(oList[..]), oList[..], CurseSeen(curse), if item < 0 then Lo(item) else 0, if item < 0 then Hi(item) else 0)
      ensures identifyRequests == old(identifyRequests) + Requests(old(inventory[..]), old(oList[..]), CurseSeen(curse), item)
    {
      NoticeItems(CurseSeen(curse), item);
    }

    /** notice_obj: jewellery slots, and the whole-body pass, also teach the
        player. */
    method NoticeObj(flag: ObjFlag, item: int)
      requires Valid() && ValidTarget(item)
      modifies inventory, oList, this`idObj, this`identifyRequests
      ensures Valid()
      ensures Applied(old(inventory[..]), inventory[..], ObjSeen(flag), if item >= 0 then Lo(item) else 0, if item >= 0 then Hi(item) else 0)
      ensures Applied(old(oList[..]), oList[..], ObjSeen(flag), if item < 0 then Lo(item) else 0, if item < 0 then Hi(item) else 0)
      ensures identifyRequests == old(identifyRequests) + Requests(old(inventory[..]), old(oList[..]), ObjSeen(flag), item)
      ensures idObj == if item == 0 || Jewellery(item - 1) then old(idObj) + {flag} else old(idObj)
      ensures idOther == old(idOther)
    {
      NoticeItems(ObjSeen(flag), item);
      if item == 0 || Jewellery(item - 1) {
        idObj := idObj + {flag};
      }
    }

    /** What notice_other teaches the player: the single item's gain for a
        positive reference, nothing for a floor item, and for the whole-body
        pass the gains of the two ring slots and the amulet slot. */
    function PlayerOtherGain(inv: seq<Item>, flag: OtherFlag, item: int): (r: set<OtherFlag>)
      requires InvenFeet < |inv| && item - 1 < |inv|
      ensures r <= {flag}
      ensures item < 0 ==> r == {}
      ensures item > 0 && !Jewellery(item - 1) ==> r == {}
      ensures !(flag.Resist? || flag.Slay? || flag.Brand?) ==> r == {}
      ensures item > 0 && Jewellery(item - 1) && (flag.Resist? || flag.Slay? || flag.Brand?) ==>
                r == OtherGain(inv[item - 1], flag)
      ensures item == 0 && (flag.Resist? || flag.Slay? || flag.Brand?) ==>
                r == OtherGain(inv[InvenLeft], flag) + OtherGain(inv[InvenRight], flag) + OtherGain(inv[InvenNeck], flag)
    {
      if item > 0 then OtherPlayerGain(inv[item - 1], flag, item - 1)
      else if item < 0 then {}
      else OtherPlayerGain(inv[InvenLeft], flag, InvenLeft)
           + OtherPlayerGain(inv[InvenRight], flag, InvenRight)
           + OtherPlayerGain(inv[InvenNeck], flag, InvenNeck)
    }

    /** notice_other: resists, slays and brands learnt on a jewellery slot
        also teach the player, on a single item and in the whole-body pass. */
    method NoticeOther(flag: OtherFlag, item: int)
      requires Valid() && ValidTarget(item)
      modifies inventory, oList, this`idOther, this`identifyRequests
      ensures Valid()
      ensures Applied(old(inventory[..]), inventory[..], OtherSeen(flag), if item >= 0 then Lo(item) else 0, if item >= 0 then Hi(item) else 0)
      ensures Applied(old(oList[..]), oList[..], OtherSeen(flag), if item < 0 then Lo(item) else 0, if item < 0 then Hi(item) else 0)
      ensures identifyRequests == old(identifyRequests) + Requests(old(inventory[..]), old(oList[..]), OtherSeen(flag), item)
      ensures idOther == old(idOther) + PlayerOtherGain(old(inventory[..]), flag, item)
      ensures idObj == old(idObj)
    {
      var gain := PlayerOtherGain(inventory[..], flag, item);
      NoticeItems(OtherSeen(flag), item);
      idOther := idOther + gain;
    }
  }
}
