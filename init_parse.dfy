/** The table logic around data loading in src/init.c: flag-name lookup,
    the limits record, placing parsed records into index-keyed arrays,
    first-free-slot insertion, and the vault-size and spell-frequency
    checks. Reading files and splitting lines into fields is not modelled:
    each handler receives its fields already parsed. */
module InitParse {

  datatype Option<T> = None | Some(value: T)

  /** The parser results the modelled handlers can return. */
  datatype ParseError =
    | NoError
    | InvalidValue
    | UndefinedDirective
    | MissingRecordHeader
    | UnrecognisedTval
    | Generic
    | TooManyEntries
    | UnrecognisedBlow
    | InvalidEffect
    | InvalidSpellFreq
    | InvalidFlag
    | VaultTooBig

  // ---------------------------------------------------------------------
  // lookup_flag / grab_flag / find_blow_method / find_blow_effect
  // ---------------------------------------------------------------------

  /** A name table is a NULL-terminated array of names; `table` holds the
      entries before the terminator, so index |table| is the terminator. */
  const FlagStart := 1
  const FlagEnd := 0

  /** The first index at or after `start` whose entry is `name`, or the
      terminator's index if there is none. */
  function IndexFrom(table: seq<string>, name: string, start: nat): (r: nat)
    requires start <= |table|
    ensures start <= r <= |table|
    ensures r < |table| ==> table[r] == name
    ensures forall j :: start <= j < r ==> table[j] != name
    decreases |table| - start
  {
    if start == |table| then |table|
    else if table[start] == name then start
    else IndexFrom(table, name, start + 1)
  }

  /** lookup_flag as a function: the first matching index from FlagStart
      on, or FlagEnd. */
  function FlagIndex(table: seq<string>, name: string): (r: nat)
    requires FlagStart <= |table|
    ensures r == FlagEnd <==> forall j :: FlagStart <= j < |table| ==> table[j] != name
    ensures r != FlagEnd ==> (FlagStart <= r < |table| && table[r] == name
                              && forall j :: FlagStart <= j < r ==> table[j] != name)
  {
    var i := IndexFrom(table, name, FlagStart);
    if i == |table| then FlagEnd else i
  }

  /** lookup_flag: walk the table from FlagStart until the name or the
      terminator. */
  method LookupFlag(table: seq<string>, name: string) returns (i: nat)
    requires FlagStart <= |table|
    ensures i == FlagIndex(table, name)
  {
    i := FlagStart;
    while i < |table| && table[i] != name
      invariant FlagStart <= i <= |table|
      invariant IndexFrom(table, name, i) == IndexFrom(table, name, FlagStart)
    {
      i := i + 1;
    }
    if i == |table| {
      i := FlagEnd;
    }
  }

  /** find_blow_method and find_blow_effect: the index of the name, or the
      terminator's index when the name is not in the table. */
  method FindName(table: seq<string>, name: string) returns (i: nat)
    ensures i == IndexFrom(table, name, 0)
  {
    i := 0;
    while i < |table| && table[i] != name
      invariant i <= |table|
      invariant IndexFrom(table, name, i) == IndexFrom(table, name, 0)
    {
      i := i + 1;
    }
  }

  /** grab_flag: set the named flag, or report an unknown name and leave
      the set alone. */
  function GrabFlag(flags: set<nat>, table: seq<string>, name: string): (r: (ParseError, set<nat>))
    requires FlagStart <= |table|
    ensures r.0 == NoError || r.0 == InvalidFlag
    ensures r.0 == InvalidFlag <==> forall j :: FlagStart <= j < |table| ==> table[j] != name
    ensures r.0 == InvalidFlag ==> r.1 == flags
    ensures forall f :: f in r.1 - flags ==> FlagStart <= f < |table| && table[f] == name
    ensures r.0 == NoError ==> exists j :: FlagStart <= j < |table| && table[j] == name && r.1 == flags + {j}
  {
    var flag := FlagIndex(table, name);
    if flag == FlagEnd then (InvalidFlag, flags) else (NoError, flags + {flag})
  }

  // ---------------------------------------------------------------------
  // parse_z: the limits record
  // ---------------------------------------------------------------------

  /** The array sizes read from the limits file. */
  datatype Maxima = Maxima(
    fMax: int, kMax: int, aMax: int, eMax: int, rMax: int, vMax: int, pMax: int, cMax: int,
    hMax: int, bMax: int, sMax: int, oMax: int, mMax: int,
    flavorMax: int, fakeNameSize: int, fakeTextSize: int)

  /** The labels of the limits record, one per field. */
  datatype Label = F | K | A | E | R | V | P | C | H | B | S | O | M | L | N | T

  /** The one-letter spelling of each label. */
  function LabelName(l: Label): string
  {
    match l
    case F => "F" case K => "K" case A => "A" case E => "E"
    case R => "R" case V => "V" case P => "P" case C => "C"
    case H => "H" case B => "B" case S => "S" case O => "O"
    case M => "M" case L => "L" case N => "N" case T => "T"
  }

  /** The chain of name comparisons of parse_z: the label a name spells,
      if any. */
  function LabelOf(tag: string): Option<Label>
  {
    if tag == "F" then Some(F) else if tag == "K" then Some(K)
    else if tag == "A" then Some(A) else if tag == "E" then Some(E)
    else if tag == "R" then Some(R) else if tag == "V" then Some(V)
    else if tag == "P" then Some(P) else if tag == "C" then Some(C)
    else if tag == "H" then Some(H) else if tag == "B" then Some(B)
    else if tag == "S" then Some(S) else if tag == "O" then Some(O)
    else if tag == "M" then Some(M) else if tag == "L" then Some(L)
    else if tag == "N" then Some(N) else if tag == "T" then Some(T)
    else None
  }

  /** Every label is recognised by its own name and by no other. */
  lemma LabelNamesRoundTrip(l: Label, tag: string)
    ensures LabelOf(LabelName(l)) == Some(l)
    ensures LabelOf(tag) == Some(l) ==> tag == LabelName(l)
  {
  }

  /** The field each label names. */
  function Field(z: Maxima, l: Label): int
  {
    match l
    case F => z.fMax case K => z.kMax case A => z.aMax case E => z.eMax
    case R => z.rMax case V => z.vMax case P => z.pMax case C => z.cMax
    case H => z.hMax case B => z.bMax case S => z.sMax case O => z.oMax
    case M => z.mMax case L => z.flavorMax case N => z.fakeNameSize case T => z.fakeTextSize
  }

  /** parse_z: a negative value is refused, a known label sets exactly its
      own field, an unknown label is refused; nothing is written on error. */
  function ParseZ(z: Maxima, tag: string, value: int): (r: (ParseError, Maxima))
    ensures value < 0 ==> r == (InvalidValue, z)
    ensures value >= 0 && LabelOf(tag).None? ==> r == (UndefinedDirective, z)
    ensures value >= 0 && LabelOf(tag).Some? ==>
              r.0 == NoError
              && forall l :: Field(r.1, l) == if l == LabelOf(tag).value then value else Field(z, l)
  {
    if value < 0 then (InvalidValue, z)
    else match LabelOf(tag)
      case None => (UndefinedDirective, z)
      case Some(l) =>
        var z' := match l
          case F => z.(fMax := value) case K => z.(kMax := value)
          case A => z.(aMax := value) case E => z.(eMax := value)
          case R => z.(rMax := value) case V => z.(vMax := value)
          case P => z.(pMax := value) case C => z.(cMax := value)
          case H => z.(hMax := value) case B => z.(bMax := value)
          case S => z.(sMax := value) case O => z.(oMax := value)
          case M => z.(mMax := value) case L => z.(flavorMax := value)
          case N => z.(fakeNameSize := value) case T => z.(fakeTextSize := value);
        (NoError, z')
  }

  // ---------------------------------------------------------------------
  // finish_parse_*: from the parsed list to the index-keyed array
  // ---------------------------------------------------------------------

  /** A parsed record and the index it declares. */
  datatype Record<T> = Record(idx: nat, body: T)

  /** Each record handler prepends, so the list holds the records newest
      first. */
  function Prepended<T>(parsed: seq<Record<T>>): (r: seq<Record<T>>)
    ensures |r| == |parsed|
    ensures forall k :: 0 <= k < |r| ==> r[k] == parsed[|parsed| - 1 - k]
  {
    if parsed == [] then [] else Prepended(parsed[1..]) + [parsed[0]]
  }

  /** What slot j holds after copying the records of `list` in order: the
      last one declaring j, or the zeroed record. */
  function Slot<T>(list: seq<Record<T>>, j: nat, blank: Record<T>): Record<T>
  {
    if list == [] then blank
    else if list[|list| - 1].idx == j then list[|list| - 1]
    else Slot(list[..|list| - 1], j, blank)
  }

  /** The first record of `parsed` declaring j, or the zeroed record. */
  function FirstDeclaring<T>(parsed: seq<Record<T>>, j: nat, blank: Record<T>): (r: Record<T>)
    ensures r == blank || (r in parsed && r.idx == j)
    ensures (exists k :: 0 <= k < |parsed| && parsed[k].idx == j) ==> r in parsed && r.idx == j
  {
    if parsed == [] then blank
    else if parsed[0].idx == j then parsed[0]
    else FirstDeclaring(parsed[1..], j, blank)
  }

  /** The record FirstDeclaring picks is the earliest one declaring j. */
  lemma {:induction false} FirstDeclaringIsEarliest<T>(parsed: seq<Record<T>>, j: nat, blank: Record<T>, k: nat)
    requires k < |parsed| && parsed[k].idx == j
    requires forall m :: 0 <= m < k ==> parsed[m].idx != j
    ensures FirstDeclaring(parsed, j, blank) == parsed[k]
    decreases k
  {
    if k > 0 {
      assert parsed[0].idx != j;
      FirstDeclaringIsEarliest(parsed[1..], j, blank, k - 1);
    }
  }

  /** finish_parse_k and its siblings: a zeroed array of `max` records,
      then every listed record with an index below `max` copied to its
      index, in list order. */
  method FinishParse<T>(list: seq<Record<T>>, max: nat, blank: Record<T>) returns (info: array<Record<T>>)
    ensures fresh(info) && info.Length == max
    ensures forall j :: 0 <= j < max ==> info[j] == Slot(list, j, blank)
  {
    info := new Record<T>[max](_ => blank);
    var k := 0;
    while k < |list|
      invariant k <= |list|
      invariant forall j :: 0 <= j < max ==> info[j] == Slot(list[..k], j, blank)
    {
      assert list[..k + 1][..k] == list[..k];
      if list[k].idx < max {
        info[list[k].idx] := list[k];
      }
      k := k + 1;
    }
    assert list[..k] == list;
  }

  /** Because the list was built by prepending, the record parsed first is
      the one that ends up in a contested slot. */
  lemma {:induction false} EarliestParsedWins<T>(parsed: seq<Record<T>>, j: nat, blank: Record<T>)
    ensures Slot(Prepended(parsed), j, blank) == FirstDeclaring(parsed, j, blank)
    decreases |parsed|
  {
    if parsed != [] {
      var list := Prepended(parsed);
      assert list == Prepended(parsed[1..]) + [parsed[0]];
      assert list[..|list| - 1] == Prepended(parsed[1..]);
      EarliestParsedWins(parsed[1..], j, blank);
    }
  }

  // ---------------------------------------------------------------------
  // First-free-slot insertion: parse_e_t, parse_r_b, parse_c_t
  // ---------------------------------------------------------------------

  /** The first slot of `s` that `used` rejects, or |s| when all are used. */
  function FirstFree<T>(s: seq<T>, used: T -> bool, start: nat): (r: nat)
    requires start <= |s|
    ensures start <= r <= |s|
    ensures r < |s| ==> !used(s[r])
    ensures forall j :: start <= j < r ==> used(s[j])
    decreases |s| - start
  {
    if start == |s| then |s|
    else if !used(s[start]) then start
    else FirstFree(s, used, start + 1)
  }

  predicate TvalUsed(t: int) { t != 0 }

  /** The allowed-kinds part of an ego template: parallel arrays of item
      type and subtype range; a zero type marks a free entry. */
  class EgoRecord {
    const tval: array<int>
    const minSval: array<int>
    const maxSval: array<int>

    ghost predicate Valid()
      reads this
    {
      tval.Length == minSval.Length == maxSval.Length
      && tval != minSval && tval != maxSval && minSval != maxSval
    }

    constructor (n: nat)
      ensures Valid() && tval.Length == n
      ensures fresh(tval) && fresh(minSval) && fresh(maxSval)
      ensures forall i :: 0 <= i < n ==> tval[i] == 0
    {
      tval := new int[n](_ => 0);
      minSval := new int[n](_ => 0);
      maxSval := new int[n](_ => 0);
    }
  }

  /** parse_e_t: record one allowed item type in the first free entry.
      `tv` is the type index found for the name (negative if unknown). */
  method ParseET(e: EgoRecord?, tv: int, minS: int, maxS: int) returns (err: ParseError)
    requires e != null ==> e.Valid()
    modifies if e != null then {e.tval, e.minSval, e.maxSval} else {}
    ensures e == null ==> err == MissingRecordHeader
    ensures e != null && tv < 0 ==> err == UnrecognisedTval
    ensures e != null ==>
              var i := FirstFree(old(e.tval[..]), TvalUsed, 0);
              && (tv >= 0 && i == e.tval.Length ==> err == Generic)
              && (tv >= 0 && i < e.tval.Length ==>
                    err == NoError
                    && e.tval[..] == old(e.tval[..])[i := tv]
                    && e.minSval[..] == old(e.minSval[..])[i := minS]
                    && e.maxSval[..] == old(e.maxSval[..])[i := maxS])
              && (err != NoError ==> e.tval[..] == old(e.tval[..]) && e.minSval[..] == old(e.minSval[..])
                                     && e.maxSval[..] == old(e.maxSval[..]))
  {
    if e == null {
      return MissingRecordHeader;
    }
    if tv < 0 {
      return UnrecognisedTval;
    }
    var i := 0;
    while i < e.tval.Length && e.tval[i] != 0
      invariant i <= e.tval.Length
      invariant FirstFree(e.tval[..], TvalUsed, i) == FirstFree(e.tval[..], TvalUsed, 0)
    {
      i := i + 1;
    }
    if i == e.tval.Length {
      return Generic;
    }
    e.tval[i] := tv;
    e.minSval[i] := minS;
    e.maxSval[i] := maxS;
    err := NoError;
  }

  /** One monster blow; a zero method marks a free entry. */
  datatype Blow = Blow(blowMethod: nat, blowEffect: nat, dice: int, sides: int)

  predicate BlowUsed(b: Blow) { b.blowMethod != 0 }

  /** The blows of a monster race and the spell part of the race. */
  class RaceRecord {
    const blows: array<Blow>
    var freqSpell: int
    var freqInnate: int
    var spellFlags: set<nat>

    constructor (n: nat)
      ensures blows.Length == n && fresh(blows)
      ensures forall i :: 0 <= i < n ==> !BlowUsed(blows[i])
      ensures freqSpell == 0 && freqInnate == 0 && spellFlags == {}
    {
      blows := new Blow[n](_ => Blow(0, 0, 0, 0));
      freqSpell, freqInnate, spellFlags := 0, 0, {};
    }
  }

  /** The blow parse_r_b leaves in the slot it picked, and its verdict.
      The method index is written before it is checked, so an unknown
      method leaves the terminator's index in the slot. */
  function BlowEntry(b: Blow, methods: seq<string>, effects: seq<string>, methodName: string,
                     effect: Option<string>, damage: Option<(int, int)>): (r: (ParseError, Blow))
    ensures r.1.blowMethod == IndexFrom(methods, methodName, 0)
    ensures r.0 == NoError <==> methodName in methods && (effect.Some? ==> effect.value in effects)
    ensures methodName !in methods ==> r == (UnrecognisedBlow, b.(blowMethod := |methods|))
    ensures r.0 == NoError && effect.Some? ==> r.1.blowEffect < |effects| && effects[r.1.blowEffect] == effect.value
    ensures r.0 == NoError && effect.None? ==> r.1.blowEffect == b.blowEffect
    ensures r.0 == NoError && damage.Some? ==> r.1.dice == damage.value.0 && r.1.sides == damage.value.1
    ensures r.0 == NoError && damage.None? ==> r.1.dice == b.dice && r.1.sides == b.sides
  {
    var m := IndexFrom(methods, methodName, 0);
    var b1 := b.(blowMethod := m);
    if m == |methods| then (UnrecognisedBlow, b1)
    else
      var e := if effect.Some? then IndexFrom(effects, effect.value, 0) else b.blowEffect;
      var b2 := b1.(blowEffect := e);
      if effect.Some? && e == |effects| then (InvalidEffect, b2)
      else if damage.Some? then (NoError, b2.(dice := damage.value.0, sides := damage.value.1))
      else (NoError, b2)
  }

  /** parse_r_b: fill the first free blow slot. */
  method ParseRB(r: RaceRecord?, methods: seq<string>, effects: seq<string>, methodName: string,
                 effect: Option<string>, damage: Option<(int, int)>) returns (err: ParseError)
    modifies if r != null then {r.blows} else {}
    ensures r == null ==> err == MissingRecordHeader
    ensures r != null ==>
              var i := FirstFree(old(r.blows[..]), BlowUsed, 0);
              && (i == r.blows.Length ==> err == TooManyEntries && r.blows[..] == old(r.blows[..]))
              && (i < r.blows.Length ==>
                    var entry := BlowEntry(old(r.blows[i]), methods, effects, methodName, effect, damage);
                    err == entry.0 && r.blows[..] == old(r.blows[..])[i := entry.1])
  {
    if r == null {
      return MissingRecordHeader;
    }
    var i := 0;
    while i < r.blows.Length && r.blows[i].blowMethod != 0
      invariant i <= r.blows.Length
      invariant FirstFree(r.blows[..], BlowUsed, i) == FirstFree(r.blows[..], BlowUsed, 0)
    {
      i := i + 1;
    }
    if i == r.blows.Length {
      return TooManyEntries;
    }
    var m := FindName(methods, methodName);
    r.blows[i] := r.blows[i].(blowMethod := m);
    if m == |methods| {
      return UnrecognisedBlow;
    }
    if effect.Some? {
      var e := FindName(effects, effect.value);
      r.blows[i] := r.blows[i].(blowEffect := e);
      if e == |effects| {
        return InvalidEffect;
      }
    }
    if damage.Some? {
      r.blows[i] := r.blows[i].(dice := damage.value.0, sides := damage.value.1);
    }
    err := NoError;
  }

  predicate TitleUsed(t: Option<string>) { t.Some? }

  /** The level titles of a player class; None marks a free entry. */
  class ClassRecord {
    const title: array<Option<string>>

    constructor (n: nat)
      ensures title.Length == n && fresh(title)
      ensures forall i :: 0 <= i < n ==> title[i] == None
    {
      title := new Option<string>[n](_ => None);
    }
  }

  /** parse_c_t: store the title in the first free entry. */
  method ParseCT(c: ClassRecord?, t: string) returns (err: ParseError)
    modifies if c != null then {c.title} else {}
    ensures c == null ==> err == MissingRecordHeader
    ensures c != null ==>
              var i := FirstFree(old(c.title[..]), TitleUsed, 0);
              && (i == c.title.Length ==> err == TooManyEntries && c.title[..] == old(c.title[..]))
              && (i < c.title.Length ==> err == NoError && c.title[..] == old(c.title[..])[i := Some(t)])
  {
    if c == null {
      return MissingRecordHeader;
    }
    var i := 0;
    while i < c.title.Length
      invariant i <= c.title.Length
      invariant FirstFree(c.title[..], TitleUsed, i) == FirstFree(c.title[..], TitleUsed, 0)
    {
      if c.title[i].None? {
        c.title[i] := Some(t);
        return NoError;
      }
      i := i + 1;
    }
    err := TooManyEntries;
  }

  /** Insertion never disturbs an occupied slot: whatever the verdict,
      every slot that was in use before holds what it held. */
  lemma InsertionKeepsUsedSlots<T>(before: seq<T>, used: T -> bool, x: T)
    requires FirstFree(before, used, 0) < |before|
    ensures forall j :: 0 <= j < |before| && used(before[j]) ==>
              before[FirstFree(before, used, 0) := x][j] == before[j]
  {
  }

  // ---------------------------------------------------------------------
  // parse_v_x
  // ---------------------------------------------------------------------

  /** The size line of a vault. */
  class VaultRecord {
    var typ: nat
    var rat: int
    var hgt: nat
    var wid: nat

    constructor ()
      ensures typ == 0 && rat == 0 && hgt == 0 && wid == 0
    {
      typ, rat, hgt, wid := 0, 0, 0, 0;
    }
  }

  /** Vaults of type 6 must fit in 33x22, vaults of type 7 in 66x44; other
      types are not limited. */
  predicate TooBig(typ: nat, hgt: nat, wid: nat) {
    (typ == 6 && (wid > 33 || hgt > 22)) || (typ == 7 && (wid > 66 || hgt > 44))
  }

  /** parse_v_x: the fields are stored first, then the size is checked. */
  method ParseVX(v: VaultRecord?, typ: nat, rat: int, hgt: nat, wid: nat) returns (err: ParseError)
    modifies v
    ensures v == null ==> err == MissingRecordHeader
    ensures v != null ==> v.typ == typ && v.rat == rat && v.hgt == hgt && v.wid == wid
    ensures v != null ==> (err == VaultTooBig <==> TooBig(typ, hgt, wid))
    ensures v != null ==> err in {NoError, VaultTooBig}
  {
    if v == null {
      return MissingRecordHeader;
    }
    v.typ, v.rat, v.hgt, v.wid := typ, rat, hgt, wid;
    if v.typ == 6 && (v.wid > 33 || v.hgt > 22) {
      return VaultTooBig;
    }
    if v.typ == 7 && (v.wid > 66 || v.hgt > 44) {
      return VaultTooBig;
    }
    err := NoError;
  }

  /** Every vault a vault line accepts fits in 66 by 44 when it is of type
      6 or 7; the type-6 limit is the tighter one. */
  lemma AcceptedVaultBounds(typ: nat, hgt: nat, wid: nat)
    requires !TooBig(typ, hgt, wid) && (typ == 6 || typ == 7)
    ensures wid <= 66 && hgt <= 44
    ensures typ == 6 ==> wid <= 33 && hgt <= 22
  {
  }

  // ---------------------------------------------------------------------
  // parse_r_s: the spell line of a monster race
  // ---------------------------------------------------------------------

  /** A token of the spell line: a frequency `1_IN_x` or a flag name. */
  datatype SpellToken = OneIn(x: int) | FlagName(name: string)

  /** The race fields the spell line writes. */
  datatype SpellState = SpellState(freqSpell: int, freqInnate: int, flags: set<nat>)

  /** One in x, for x from 1 to 100, is a percentage from 1 to 100. */
  lemma PercentBounds(x: int)
    requires 1 <= x <= 100
    ensures 1 <= 100 / x <= 100
  {
  }

  predicate ValidToken(t: SpellToken, table: seq<string>)
    requires FlagStart <= |table|
  {
    match t
    case OneIn(x) => 1 <= x <= 100
    case FlagName(n) => FlagIndex(table, n) != FlagEnd
  }

  /** The spell line, token by token: a frequency outside 1..100 or an
      unknown flag stops the line with an error, keeping what the earlier
      tokens wrote. */
  function SpellLine(ts: seq<SpellToken>, table: seq<string>, st: SpellState): (r: (ParseError, SpellState))
    requires FlagStart <= |table|
    ensures r.0 in {NoError, InvalidSpellFreq, InvalidFlag}
    ensures r.0 == NoError <==> forall k :: 0 <= k < |ts| ==> ValidToken(ts[k], table)
    ensures st.flags <= r.1.flags
    ensures forall f :: f in r.1.flags - st.flags ==> FlagStart <= f < |table|
    ensures st.freqSpell == st.freqInnate ==> r.1.freqSpell == r.1.freqInnate
    ensures r.1.freqSpell != st.freqSpell ==> 1 <= r.1.freqSpell <= 100
    decreases |ts|
  {
    if ts == [] then (NoError, st)
    else match ts[0]
      case OneIn(x) =>
        if x < 1 || x > 100 then (InvalidSpellFreq, st)
        else
          PercentBounds(x);
          var r := SpellLine(ts[1..], table, st.(freqSpell := 100 / x, freqInnate := 100 / x));
          assert forall k :: 1 <= k < |ts| ==> ts[k] == ts[1..][k - 1];
          r
      case FlagName(n) =>
        var g := GrabFlag(st.flags, table, n);
        if g.0 != NoError then (InvalidFlag, st)
        else
          var r := SpellLine(ts[1..], table, st.(flags := g.1));
          assert forall k :: 1 <= k < |ts| ==> ts[k] == ts[1..][k - 1];
          assert forall f :: f in r.1.flags - st.flags ==> f in r.1.flags - g.1 || f in g.1 - st.flags;
          r
  }

  /** A frequency token sets both frequencies to 100 divided by x and goes
      on with the rest of the line; outside 1..100 it stops the line. */
  lemma SpellFreq(x: int, ts: seq<SpellToken>, table: seq<string>, st: SpellState)
    requires FlagStart <= |table|
    ensures 1 <= x <= 100 ==>
              SpellLine([OneIn(x)] + ts, table, st)
              == SpellLine(ts, table, st.(freqSpell := 100 / x, freqInnate := 100 / x))
    ensures !(1 <= x <= 100) ==> SpellLine([OneIn(x)] + ts, table, st) == (InvalidSpellFreq, st)
  {
    assert ([OneIn(x)] + ts)[1..] == ts;
  }

  /** A flag token adds the flag's table index and goes on with the rest
      of the line; an unknown name stops the line. */
  lemma SpellFlag(n: string, ts: seq<SpellToken>, table: seq<string>, st: SpellState)
    requires FlagStart <= |table|
    ensures FlagIndex(table, n) != FlagEnd ==>
              SpellLine([FlagName(n)] + ts, table, st)
              == SpellLine(ts, table, st.(flags := st.flags + {FlagIndex(table, n)}))
    ensures FlagIndex(table, n) == FlagEnd ==> SpellLine([FlagName(n)] + ts, table, st) == (InvalidFlag, st)
  {
    assert ([FlagName(n)] + ts)[1..] == ts;
  }

  /** The table indices of the flag names of a line. */
  function FlagsNamed(ts: seq<SpellToken>, table: seq<string>): set<nat>
    requires FlagStart <= |table|
  {
    set k | 0 <= k < |ts| && ts[k].FlagName? :: FlagIndex(table, ts[k].name)
  }

  /** An accepted line adds exactly the flags it names. */
  lemma {:induction false} SpellLineFlags(ts: seq<SpellToken>, table: seq<string>, st: SpellState)
    requires FlagStart <= |table|
    ensures SpellLine(ts, table, st).0 == NoError ==>
              SpellLine(ts, table, st).1.flags == st.flags + FlagsNamed(ts, table)
    decreases |ts|
  {
    if ts != [] && SpellLine(ts, table, st).0 == NoError {
      var rest := FlagsNamed(ts[1..], table);
      assert FlagsNamed(ts, table) == (if ts[0].FlagName? then {FlagIndex(table, ts[0].name)} else {}) + rest by {
        forall k | 0 < k < |ts| ensures ts[k] == ts[1..][k - 1] { }
      }
      match ts[0]
      case OneIn(x) =>
        SpellLineFlags(ts[1..], table, st.(freqSpell := 100 / x, freqInnate := 100 / x));
      case FlagName(n) =>
        SpellLineFlags(ts[1..], table, st.(flags := st.flags + {FlagIndex(table, n)}));
    }
  }

  /** parse_r_s on the race record, with the line already split into
      tokens. */
  method ParseRS(r: RaceRecord?, ts: seq<SpellToken>, table: seq<string>) returns (err: ParseError)
    requires FlagStart <= |table|
    modifies r
    ensures r == null ==> err == MissingRecordHeader
    ensures r != null ==>
              var res := SpellLine(ts, table, SpellState(old(r.freqSpell), old(r.freqInnate), old(r.spellFlags)));
              err == res.0 && SpellState(r.freqSpell, r.freqInnate, r.spellFlags) == res.1
  {
    if r == null {
      return MissingRecordHeader;
    }
    err := NoError;
    var k := 0;
    while k < |ts|
      invariant k <= |ts|
      invariant SpellLine(ts, table, SpellState(old(r.freqSpell), old(r.freqInnate), old(r.spellFlags)))
             == SpellLine(ts[k..], table, SpellState(r.freqSpell, r.freqInnate, r.spellFlags))
    {
      assert ts[k..][1..] == ts[k + 1..];
      match ts[k] {
        case OneIn(x) =>
          if x < 1 || x > 100 {
            return InvalidSpellFreq;
          }
          r.freqSpell := 100 / x;
          r.freqInnate := r.freqSpell;
        case FlagName(n) =>
          var g := GrabFlag(r.spellFlags, table, n);
          if g.0 != NoError {
            return InvalidFlag;
          }
          r.spellFlags := g.1;
      }
      k := k + 1;
    }
  }
}
