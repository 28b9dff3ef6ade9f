/** Two tables built once the data files are loaded (src/init.c): the
    spell-book table `spell_list` and the level-grouped allocation tables
    of monster races and ego items. */
module InitTables {

  // ---------------------------------------------------------------------
  // init_books
  // ---------------------------------------------------------------------

  /** Where a spell sits: its realm, the book within the realm and the
      place within the book. */
  datatype SpellPos = SpellPos(realm: nat, sval: nat, snum: nat)

  /** The spell that claims a cell after spells 0..n-1 were placed in
      order: the last one placed there, or -1. */
  function Claimant(spells: seq<SpellPos>, n: nat, pos: SpellPos): (r: int)
    requires n <= |spells|
    ensures -1 <= r < n
    ensures r == -1 <==> forall s :: 0 <= s < n ==> spells[s] != pos
    ensures r >= 0 ==> spells[r] == pos && forall s :: r < s < n ==> spells[s] != pos
  {
    if n == 0 then -1
    else if spells[n - 1] == pos then n - 1
    else Claimant(spells, n - 1, pos)
  }

  /** init_books: every cell of the realm x book x place table starts at -1,
      then each spell writes its own index into its cell. */
  method InitBooks(spellList: array3<int>, spells: seq<SpellPos>)
    requires forall s :: 0 <= s < |spells| ==>
               spells[s].realm < spellList.Length0 && spells[s].sval < spellList.Length1
               && spells[s].snum < spellList.Length2
    modifies spellList
    ensures forall r, v, n :: 0 <= r < spellList.Length0 && 0 <= v < spellList.Length1 && 0 <= n < spellList.Length2 ==>
              spellList[r, v, n] == Claimant(spells, |spells|, SpellPos(r, v, n))
  {
    var realm := 0;
    while realm < spellList.Length0
      invariant realm <= spellList.Length0
      invariant forall r, v, n :: 0 <= r < realm && 0 <= v < spellList.Length1 && 0 <= n < spellList.Length2 ==>
                  spellList[r, v, n] == -1
    {
      var sval := 0;
      while sval < spellList.Length1
        invariant sval <= spellList.Length1
        invariant forall r, v, n :: 0 <= r < realm && 0 <= v < spellList.Length1 && 0 <= n < spellList.Length2 ==>
                    spellList[r, v, n] == -1
        invariant forall v, n :: 0 <= v < sval && 0 <= n < spellList.Length2 ==> spellList[realm, v, n] == -1
      {
        var snum := 0;
        while snum < spellList.Length2
          invariant snum <= spellList.Length2
          invariant forall r, v, n :: 0 <= r < realm && 0 <= v < spellList.Length1 && 0 <= n < spellList.Length2 ==>
                      spellList[r, v, n] == -1
          invariant forall v, n :: 0 <= v < sval && 0 <= n < spellList.Length2 ==> spellList[realm, v, n] == -1
          invariant forall n :: 0 <= n < snum ==> spellList[realm, sval, n] == -1
        {
          spellList[realm, sval, snum] := -1;
          snum := snum + 1;
        }
        sval := sval + 1;
      }
      realm := realm + 1;
    }
    var spell := 0;
    while spell < |spells|
      invariant spell <= |spells|
      invariant forall r, v, n :: 0 <= r < spellList.Length0 && 0 <= v < spellList.Length1 && 0 <= n < spellList.Length2 ==>
                  spellList[r, v, n] == Claimant(spells, spell, SpellPos(r, v, n))
    {
      var p := spells[spell];
      spellList[p.realm, p.sval, p.snum] := spell;
      spell := spell + 1;
    }
  }

  /** A spell is found in its own cell unless a later spell shares it; an
      unclaimed cell keeps -1. */
  lemma BookCells(spells: seq<SpellPos>, s: nat, pos: SpellPos)
    requires s < |spells|
    ensures (forall t :: s < t < |spells| ==> spells[t] != spells[s]) ==> Claimant(spells, |spells|, spells[s]) == s
    ensures Claimant(spells, |spells|, pos) == -1 <==> pos !in spells
  {
    var c := Claimant(spells, |spells|, spells[s]);
    if forall t :: s < t < |spells| ==> spells[t] != spells[s] {
      assert c >= s;
    }
    if pos in spells {
      var t :| 0 <= t < |spells| && spells[t] == pos;
    }
  }

  // ---------------------------------------------------------------------
  // init_alloc
  // ---------------------------------------------------------------------

  /** What init_alloc reads of a monster race or ego template: its native
      level and its rarity; rarity 0 keeps it out of the table. */
  datatype Source = Source(level: nat, rarity: nat)

  /** One allocation entry: the record's index, its level and its three
      probabilities. */
  datatype AllocEntry = AllocEntry(index: nat, level: nat, prob1: nat, prob2: nat, prob3: nat)

  /** The entry of record i: all three probabilities are 100/rarity. */
  function Entry(recs: seq<Source>, i: nat): (r: AllocEntry)
    requires i < |recs| && recs[i].rarity != 0
    ensures r.index == i && r.level == recs[i].level
    ensures r.prob1 == r.prob2 == r.prob3 == 100 / recs[i].rarity <= 100
  {
    var p := 100 / recs[i].rarity;
    AllocEntry(i, recs[i].level, p, p, p)
  }

  /** The entries of level l among records lo..hi-1, in index order. */
  function Group(recs: seq<Source>, lo: nat, hi: nat, l: nat): seq<AllocEntry>
    requires lo <= hi <= |recs|
    decreases hi
  {
    if hi == lo then []
    else Group(recs, lo, hi - 1, l) + (if recs[hi - 1].rarity != 0 && recs[hi - 1].level == l then [Entry(recs, hi - 1)] else [])
  }

  /** The groups of levels 0..L-1 one after the other: the allocation table. */
  function Grouped(recs: seq<Source>, lo: nat, hi: nat, L: nat): seq<AllocEntry>
    requires lo <= hi <= |recs|
  {
    if L == 0 then [] else Grouped(recs, lo, hi, L - 1) + Group(recs, lo, hi, L - 1)
  }

  /** The number of records in lo..hi-1 that have a nonzero rarity. */
  function CountListed(recs: seq<Source>, lo: nat, hi: nat): nat
    requires lo <= hi <= |recs|
    decreases hi
  {
    if hi == lo then 0 else CountListed(recs, lo, hi - 1) + (if recs[hi - 1].rarity != 0 then 1 else 0)
  }

  lemma {:induction false} GroupedEmpty(recs: seq<Source>, lo: nat, L: nat)
    requires lo <= |recs|
    ensures Grouped(recs, lo, lo, L) == []
  {
    if L > 0 {
      GroupedEmpty(recs, lo, L - 1);
    }
  }

  lemma {:induction false} GroupedGrows(recs: seq<Source>, lo: nat, i: nat, L: nat)
    requires lo <= i < |recs|
    ensures |Grouped(recs, lo, i + 1, L)|
            == |Grouped(recs, lo, i, L)| + (if recs[i].rarity != 0 && recs[i].level < L then 1 else 0)
  {
    if L > 0 {
      GroupedGrows(recs, lo, i, L - 1);
    }
  }

  lemma GroupGrows(recs: seq<Source>, lo: nat, i: nat)
    requires lo <= i < |recs|
    ensures forall l :: |Group(recs, lo, i + 1, l)|
                        == |Group(recs, lo, i, l)| + (if recs[i].rarity != 0 && recs[i].level == l then 1 else 0)
  {
  }

  lemma {:induction false} GroupPrefix(recs: seq<Source>, lo: nat, i: nat, j: nat, l: nat)
    requires lo <= i <= j <= |recs|
    ensures Group(recs, lo, i, l) <= Group(recs, lo, j, l)
    decreases j
  {
    if i < j {
      GroupPrefix(recs, lo, i, j - 1, l);
    }
  }

  lemma {:induction false} GroupedLengthMonotone(recs: seq<Source>, lo: nat, hi: nat, l: nat, m: nat)
    requires lo <= hi <= |recs| && l <= m
    ensures |Grouped(recs, lo, hi, l)| <= |Grouped(recs, lo, hi, m)|
    decreases m
  {
    if l < m {
      GroupedLengthMonotone(recs, lo, hi, l, m - 1);
    }
  }

  lemma {:induction false} GroupedPrefix(recs: seq<Source>, lo: nat, hi: nat, l: nat, m: nat)
    requires lo <= hi <= |recs| && l <= m
    ensures Grouped(recs, lo, hi, l) <= Grouped(recs, lo, hi, m)
    decreases m
  {
    if l < m {
      GroupedPrefix(recs, lo, hi, l, m - 1);
    }
  }

  /** Where a listed record's entry lands: after the runs of the lower
      levels and after the entries of its own level with smaller indices.
      This is the cell init_alloc computes from the running totals. */
  lemma EntryPosition(recs: seq<Source>, lo: nat, hi: nat, L: nat, i: nat)
    requires lo <= i < hi <= |recs| && recs[i].rarity != 0 && recs[i].level < L
    ensures |Grouped(recs, lo, hi, recs[i].level)| + |Group(recs, lo, i, recs[i].level)| < |Grouped(recs, lo, hi, L)|
    ensures Grouped(recs, lo, hi, L)[|Grouped(recs, lo, hi, recs[i].level)| + |Group(recs, lo, i, recs[i].level)|]
            == Entry(recs, i)
  {
    var x := recs[i].level;
    var before, run := Grouped(recs, lo, hi, x), Group(recs, lo, hi, x);
    var k := |Group(recs, lo, i, x)|;
    GroupPrefix(recs, lo, i + 1, hi, x);
    assert Group(recs, lo, i + 1, x) == Group(recs, lo, i, x) + [Entry(recs, i)];
    assert run[k] == Entry(recs, i);
    assert Grouped(recs, lo, hi, x + 1) == before + run;
    assert Grouped(recs, lo, hi, x + 1)[|before| + k] == Entry(recs, i);
    GroupedPrefix(recs, lo, hi, x + 1, L);
  }

  /** The first scan of init_alloc: the number of listed records, and
      per level the number of listed records of that level. */
  method CountLevels(recs: seq<Source>, lo: nat, hi: nat, maxDepth: nat) returns (num: array<nat>, size: nat)
    requires lo <= hi <= |recs|
    requires forall i :: lo <= i < hi && recs[i].rarity != 0 ==> recs[i].level < maxDepth
    ensures fresh(num) && num.Length == maxDepth
    ensures size == |Grouped(recs, lo, hi, maxDepth)|
    ensures forall l :: 0 <= l < maxDepth ==> num[l] == |Group(recs, lo, hi, l)|
  {
    num := new nat[maxDepth](_ => 0);
    size := 0;
    var i := lo;
    while i < hi
      invariant lo <= i <= hi
      invariant size == CountListed(recs, lo, i)
      invariant forall l :: 0 <= l < maxDepth ==> num[l] == |Group(recs, lo, i, l)|
    {
      GroupGrows(recs, lo, i);
      if recs[i].rarity != 0 {
        size := size + 1;
        num[recs[i].level] := num[recs[i].level] + 1;
      }
      i := i + 1;
    }
    AllocTableSize(recs, lo, hi, maxDepth);
  }

  /** "Collect the level indexes": each count becomes the number of listed
      records at that level or below. */
  method RunningTotals(num: array<nat>, ghost recs: seq<Source>, ghost lo: nat, ghost hi: nat)
    requires lo <= hi <= |recs| && 1 <= num.Length
    requires forall l :: 0 <= l < num.Length ==> num[l] == |Group(recs, lo, hi, l)|
    modifies num
    ensures forall l :: 0 <= l < num.Length ==> num[l] == |Grouped(recs, lo, hi, l + 1)|
  {
    assert Grouped(recs, lo, hi, 1) == Group(recs, lo, hi, 0);
    var x := 1;
    while x < num.Length
      invariant 1 <= x <= num.Length
      invariant forall l :: 0 <= l < x ==> num[l] == |Grouped(recs, lo, hi, l + 1)|
      invariant forall l :: x <= l < num.Length ==> num[l] == |Group(recs, lo, hi, l)|
    {
      num[x] := num[x] + num[x - 1];
      x := x + 1;
    }
  }

  /** The second scan of init_alloc: each listed record goes to the cell
      after the lower levels' runs and its own level's earlier entries. */
  method PlaceEntries(recs: seq<Source>, lo: nat, hi: nat, num: array<nat>, table: array<AllocEntry>)
    requires lo <= hi <= |recs| && 1 <= num.Length && num != table as object
    requires forall i :: lo <= i < hi && recs[i].rarity != 0 ==> recs[i].level < num.Length
    requires forall l :: 0 <= l < num.Length ==> num[l] == |Grouped(recs, lo, hi, l + 1)|
    requires table.Length == |Grouped(recs, lo, hi, num.Length)|
    modifies table
    ensures table[..] == Grouped(recs, lo, hi, num.Length)
  {
    var aux := new nat[num.Length](_ => 0);
    ghost var target := Grouped(recs, lo, hi, num.Length);
    IndicesInRange(recs, lo, hi, num.Length);
    var i := lo;
    while i < hi
      invariant lo <= i <= hi
      invariant forall l :: 0 <= l < aux.Length ==> aux[l] == |Group(recs, lo, i, l)|
      invariant forall z :: 0 <= z < |target| && target[z].index < i ==> table[z] == target[z]
    {
      if recs[i].rarity != 0 {
        LoadEntry(recs, lo, hi, num, aux, table, i);
      } else {
        SkipStep(table[..], recs, lo, hi, num.Length, i);
        GroupGrows(recs, lo, i);
      }
      i := i + 1;
    }
    assert table[..] == target;
  }

  /** One listed record of the second scan: its entry goes to cell
      num[x-1] + aux[x] for its level x, and aux[x] counts it. */
  method LoadEntry(recs: seq<Source>, lo: nat, hi: nat, num: array<nat>, aux: array<nat>, table: array<AllocEntry>, i: nat)
    requires lo <= i < hi <= |recs| && recs[i].rarity != 0
    requires 1 <= num.Length == aux.Length && recs[i].level < num.Length
    requires num != table as object && num != aux && aux as object != table
    requires forall l :: 0 <= l < num.Length ==> num[l] == |Grouped(recs, lo, hi, l + 1)|
    requires table.Length == |Grouped(recs, lo, hi, num.Length)|
    requires forall l :: 0 <= l < aux.Length ==> aux[l] == |Group(recs, lo, i, l)|
    requires var target := Grouped(recs, lo, hi, num.Length);
             forall z :: 0 <= z < |target| && target[z].index < i ==> table[z] == target[z]
    modifies table, aux
    ensures forall l :: 0 <= l < aux.Length ==> aux[l] == |Group(recs, lo, i + 1, l)|
    ensures var target := Grouped(recs, lo, hi, num.Length);
            forall z :: 0 <= z < |target| && target[z].index < i + 1 ==> table[z] == target[z]
  {
    var x := recs[i].level;
    var p := 100 / recs[i].rarity;
    var y := if x > 0 then num[x - 1] else 0;
    assert y == |Grouped(recs, lo, hi, x)| by {
      if x == 0 { assert Grouped(recs, lo, hi, 0) == []; }
    }
    var z := y + aux[x];
    EntryPosition(recs, lo, hi, num.Length, i);
    PlaceStep(table[..], recs, lo, hi, num.Length, i, z);
    assert AllocEntry(i, x, p, p, p) == Entry(recs, i);
    table[z] := AllocEntry(i, x, p, p, p);
    GroupGrows(recs, lo, i);
    aux[x] := aux[x] + 1;
  }

  lemma IndicesInRange(recs: seq<Source>, lo: nat, hi: nat, L: nat)
    requires lo <= hi <= |recs|
    ensures forall z :: 0 <= z < |Grouped(recs, lo, hi, L)| ==> lo <= Grouped(recs, lo, hi, L)[z].index < hi
  {
    AllocTableMembers(recs, lo, hi, L);
  }

  /** Writing a listed record's entry into its cell extends the part of
      the table that is already right by exactly that record. */
  lemma PlaceStep(t: seq<AllocEntry>, recs: seq<Source>, lo: nat, hi: nat, L: nat, i: nat, z: nat)
    requires lo <= i < hi <= |recs| && recs[i].rarity != 0
    requires z < |t| == |Grouped(recs, lo, hi, L)| && Grouped(recs, lo, hi, L)[z] == Entry(recs, i)
    requires var target := Grouped(recs, lo, hi, L);
             forall z' :: 0 <= z' < |target| && target[z'].index < i ==> t[z'] == target[z']
    ensures var target := Grouped(recs, lo, hi, L);
            forall z' :: 0 <= z' < |target| && target[z'].index < i + 1 ==> t[z := Entry(recs, i)][z'] == target[z']
  {
    var target := Grouped(recs, lo, hi, L);
    AllocTableMembers(recs, lo, hi, L);
    AllocTableOrdered(recs, lo, hi, L);
    forall z' | 0 <= z' < |target| && target[z'].index == i
      ensures z' == z
    {
      assert target[z'] == Entry(recs, target[z'].index);
      OrderedIndexUnique(target, z, z');
    }
  }

  /** A record with rarity 0 has no entry, so skipping it keeps the part of
      the table that is already right. */
  lemma SkipStep(t: seq<AllocEntry>, recs: seq<Source>, lo: nat, hi: nat, L: nat, i: nat)
    requires lo <= i < hi <= |recs| && recs[i].rarity == 0 && |t| == |Grouped(recs, lo, hi, L)|
    requires var target := Grouped(recs, lo, hi, L);
             forall z' :: 0 <= z' < |target| && target[z'].index < i ==> t[z'] == target[z']
    ensures var target := Grouped(recs, lo, hi, L);
            forall z' :: 0 <= z' < |target| && target[z'].index < i + 1 ==> t[z'] == target[z']
  {
    AllocTableMembers(recs, lo, hi, L);
  }

  /** One pass of init_alloc over records lo..hi-1. `townCount` is the
      number of listed records at level 0. */
  method BuildAllocTable(recs: seq<Source>, lo: nat, hi: nat, maxDepth: nat)
      returns (table: array<AllocEntry>, townCount: nat)
    requires lo <= hi <= |recs| && 1 <= maxDepth
    requires forall i :: lo <= i < hi && recs[i].rarity != 0 ==> recs[i].level < maxDepth
    ensures fresh(table)
    ensures table[..] == Grouped(recs, lo, hi, maxDepth)
    ensures townCount == |Group(recs, lo, hi, 0)|
  {
    var num, size := CountLevels(recs, lo, hi, maxDepth);
    RunningTotals(num, recs, lo, hi);
    assert Grouped(recs, lo, hi, 1) == Group(recs, lo, hi, 0);
    townCount := num[0];
    table := new AllocEntry[size](_ => AllocEntry(0, 0, 0, 0, 0));
    PlaceEntries(recs, lo, hi, num, table);
  }

  /** init_alloc for monster races (indices 1..r_max-2: the last race is the
      player ghost) and ego items (indices 1..e_max-1). With no listed
      level-0 race the game stops before the ego table is built. */
  method InitAlloc(races: seq<Source>, egos: seq<Source>, maxDepth: nat)
      returns (ok: bool, raceTable: array<AllocEntry>, egoTable: array<AllocEntry>)
    requires 1 <= maxDepth
    requires forall i :: RaceLo(|races|) <= i < RaceHi(|races|) && races[i].rarity != 0 ==> races[i].level < maxDepth
    requires forall i :: (if |egos| == 0 then 0 else 1) <= i < |egos| && egos[i].rarity != 0 ==> egos[i].level < maxDepth
    ensures ok <==> |Group(races, RaceLo(|races|), RaceHi(|races|), 0)| != 0
    ensures ok ==> raceTable[..] == Grouped(races, RaceLo(|races|), RaceHi(|races|), maxDepth)
    ensures ok ==> egoTable[..] == Grouped(egos, if |egos| == 0 then 0 else 1, |egos|, maxDepth)
  {
    var town;
    raceTable, town := BuildAllocTable(races, RaceLo(|races|), RaceHi(|races|), maxDepth);
    if town == 0 {
      ok := false;
      egoTable := new AllocEntry[0];
      return;
    }
    var egoTown;
    egoTable, egoTown := BuildAllocTable(egos, if |egos| == 0 then 0 else 1, |egos|, maxDepth);
    ok := true;
  }

  /** The bounds of the race scan `for (i = 1; i < r_max - 1; i++)`, as a
      half-open range that is empty when the loop does not run. */
  function RaceHi(rMax: nat): (r: nat)
    ensures r <= rMax && (rMax >= 2 ==> r == rMax - 1)
  {
    if rMax >= 2 then rMax - 1 else 0
  }

  function RaceLo(rMax: nat): (r: nat)
    ensures r <= RaceHi(rMax) && (rMax >= 2 ==> r == 1)
  {
    if rMax >= 2 then 1 else 0
  }

  // ---------------------------------------------------------------------
  // What the allocation table guarantees
  // ---------------------------------------------------------------------

  lemma {:induction false} GroupMembers(recs: seq<Source>, lo: nat, hi: nat, l: nat)
    requires lo <= hi <= |recs|
    ensures forall k :: 0 <= k < |Group(recs, lo, hi, l)| ==>
              var e := Group(recs, lo, hi, l)[k];
              lo <= e.index < hi && recs[e.index].rarity != 0 && e.level == l && e == Entry(recs, e.index)
    ensures forall a, b :: 0 <= a < b < |Group(recs, lo, hi, l)| ==>
              Group(recs, lo, hi, l)[a].index < Group(recs, lo, hi, l)[b].index
    decreases hi
  {
    if hi > lo {
      GroupMembers(recs, lo, hi - 1, l);
    }
  }

  /** Every entry of the table is the entry of a listed record in range,
      below the table's depth. */
  lemma {:induction false} AllocTableMembers(recs: seq<Source>, lo: nat, hi: nat, L: nat)
    requires lo <= hi <= |recs|
    ensures forall z :: 0 <= z < |Grouped(recs, lo, hi, L)| ==>
              var e := Grouped(recs, lo, hi, L)[z];
              lo <= e.index < hi && recs[e.index].rarity != 0 && e.level < L && e == Entry(recs, e.index)
  {
    if L > 0 {
      AllocTableMembers(recs, lo, hi, L - 1);
      GroupMembers(recs, lo, hi, L - 1);
      var prev := Grouped(recs, lo, hi, L - 1);
      assert forall z :: |prev| <= z < |Grouped(recs, lo, hi, L)| ==>
               Grouped(recs, lo, hi, L)[z] == Group(recs, lo, hi, L - 1)[z - |prev|];
    }
  }

  /** Ordered by level, and by index within a level; in particular no
      index appears twice. */
  predicate LevelOrdered(t: seq<AllocEntry>) {
    forall a, b :: 0 <= a < b < |t| ==>
      t[a].level < t[b].level || (t[a].level == t[b].level && t[a].index < t[b].index)
  }

  lemma OrderedIndexUnique(t: seq<AllocEntry>, a: nat, b: nat)
    requires LevelOrdered(t) && a < |t| && b < |t| && t[a] == t[b]
    ensures a == b
  {
  }

  /** The table is ordered by level, and by index within a level; in
      particular no record appears twice. */
  lemma {:induction false} AllocTableOrdered(recs: seq<Source>, lo: nat, hi: nat, L: nat)
    requires lo <= hi <= |recs|
    ensures LevelOrdered(Grouped(recs, lo, hi, L))
  {
    if L > 0 {
      var prev, g := Grouped(recs, lo, hi, L - 1), Group(recs, lo, hi, L - 1);
      var t := Grouped(recs, lo, hi, L);
      assert t == prev + g;
      AllocTableOrdered(recs, lo, hi, L - 1);
      AllocTableMembers(recs, lo, hi, L - 1);
      GroupMembers(recs, lo, hi, L - 1);
      forall a, b | 0 <= a < b < |t|
        ensures t[a].level < t[b].level || (t[a].level == t[b].level && t[a].index < t[b].index)
      {
        if b < |prev| {
          assert t[a] == prev[a] && t[b] == prev[b];
        } else if a < |prev| {
          assert t[a] == prev[a] && t[b] == g[b - |prev|];
          assert prev[a].level < L - 1;
          assert g[b - |prev|].level == L - 1;
        } else {
          assert t[a] == g[a - |prev|] && t[b] == g[b - |prev|];
          assert g[a - |prev|].index < g[b - |prev|].index;
          assert g[a - |prev|].level == L - 1;
          assert g[b - |prev|].level == L - 1;
        }
      }
    }
  }

  lemma {:induction false} GroupComplete(recs: seq<Source>, lo: nat, hi: nat, i: nat)
    requires lo <= i < hi <= |recs| && recs[i].rarity != 0
    ensures Entry(recs, i) in Group(recs, lo, hi, recs[i].level)
    decreases hi
  {
    var g := Group(recs, lo, hi - 1, recs[i].level);
    if i < hi - 1 {
      GroupComplete(recs, lo, hi - 1, i);
      var k :| 0 <= k < |g| && g[k] == Entry(recs, i);
      assert Group(recs, lo, hi, recs[i].level)[k] == g[k];
    } else {
      assert Group(recs, lo, hi, recs[i].level) == g + [Entry(recs, i)];
      assert Group(recs, lo, hi, recs[i].level)[|g|] == Entry(recs, i);
    }
  }

  /** Every listed record below the table's depth has an entry, and only
      one. */
  lemma {:induction false} AllocTableComplete(recs: seq<Source>, lo: nat, hi: nat, L: nat, i: nat)
    requires lo <= i < hi <= |recs| && recs[i].rarity != 0 && recs[i].level < L
    ensures Entry(recs, i) in Grouped(recs, lo, hi, L)
    ensures forall a, b :: 0 <= a < b < |Grouped(recs, lo, hi, L)| ==>
              Grouped(recs, lo, hi, L)[a] != Entry(recs, i) || Grouped(recs, lo, hi, L)[b] != Entry(recs, i)
  {
    AllocTableOrdered(recs, lo, hi, L);
    var prev, g := Grouped(recs, lo, hi, L - 1), Group(recs, lo, hi, L - 1);
    assert Grouped(recs, lo, hi, L) == prev + g;
    if recs[i].level == L - 1 {
      GroupComplete(recs, lo, hi, i);
      var k :| 0 <= k < |g| && g[k] == Entry(recs, i);
      assert (prev + g)[|prev| + k] == Entry(recs, i);
    } else {
      AllocTableComplete(recs, lo, hi, L - 1, i);
      var k :| 0 <= k < |prev| && prev[k] == Entry(recs, i);
      assert (prev + g)[k] == Entry(recs, i);
    }
  }

  /** When every listed record is below the table's depth, the table has
      exactly one entry per listed record. */
  lemma {:induction false} AllocTableSize(recs: seq<Source>, lo: nat, hi: nat, L: nat)
    requires lo <= hi <= |recs|
    requires forall i :: lo <= i < hi && recs[i].rarity != 0 ==> recs[i].level < L
    ensures |Grouped(recs, lo, hi, L)| == CountListed(recs, lo, hi)
    decreases hi
  {
    if hi > lo {
      AllocTableSize(recs, lo, hi - 1, L);
      GroupedGrows(recs, lo, hi - 1, L);
      assert hi - 1 + 1 == hi;
    } else {
      GroupedEmpty(recs, lo, L);
    }
  }
}
