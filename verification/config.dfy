/** The installation-wide region table with its group tags, the per-panel
    slices of it, their bounds-checked getters and the coordinator's group
    lookups (include/config.h). */
module Config {
  import opened Machine
  import opened Common

  /** Group tags: one bit each, combined with `|` in a region's `groups`. */
  const GROUP_NONE: bv16 := 0
  const GROUP_SYMBOL: bv16 := 1 << 0
  const GROUP_RAAVANA_HEAD: bv16 := 1 << 1
  const GROUP_RAAVANA: bv16 := 1 << 2
  const GROUP_CONTINENT: bv16 := 1 << 3
  const GROUP_BULL: bv16 := 1 << 4
  const GROUP_BHARATHI: bv16 := 1 << 5
  const GROUP_VEENA: bv16 := 1 << 6
  const GROUP_DANCER: bv16 := 1 << 7
  const GROUP_VALLUVAR: bv16 := 1 << 8

  /** The tags, in declaration order. */
  const GROUP_TAGS: seq<bv16> := [
    GROUP_SYMBOL, GROUP_RAAVANA_HEAD, GROUP_RAAVANA, GROUP_CONTINENT, GROUP_BULL,
    GROUP_BHARATHI, GROUP_VEENA, GROUP_DANCER, GROUP_VALLUVAR]

  /** GPIO pins, by panel. */
  const PIN_P1_BULL_SYMBOL: Byte := 25
  const PIN_P1_BULL_HEAD: Byte := 26
  const PIN_P1_BHARATHI_EYES: Byte := 27
  const PIN_P1_BHARATHI_SYMBOL: Byte := 14
  const PIN_P1_BHARATHI_CLOTH: Byte := 12
  const PIN_P2_CONTINENT_F: Byte := 25
  const PIN_P2_VEENA_SYMBOL: Byte := 26
  const PIN_P2_VEENA_REST: Byte := 27
  const PIN_P2_DANCER_SYMBOL: Byte := 14
  const PIN_P2_DANCER_TOP: Byte := 12
  const PIN_P2_DANCER_BOTTOM: Byte := 13
  const PIN_P3_CONTINENT_U: Byte := 25
  const PIN_P3_RAAVANA_HEAD: Byte := 26
  const PIN_P3_VALLUVAR_SYMBOL: Byte := 27
  const PIN_P3_VALLUVAR_REST: Byte := 14
  const PIN_P3_CONTINENT_C: Byte := 12
  const PIN_P4_RAAVANA_HEAD_SYMBOL: Byte := 25
  const PIN_P4_RAAVANA_HEAD_REST: Byte := 26
  const PIN_P4_RAAVANA_CORE: Byte := 27
  const PIN_P4_RAAVANA_TORSO: Byte := 14

  datatype RegionInfo = RegionInfo(globalIndex: Byte, pin: Byte, name: string, verticalPos: Byte, groups: bv16)

  /** Every region of the installation, indexed by global region index. */
  const ALL_REGIONS: seq<RegionInfo> := [
    RegionInfo(0, PIN_P1_BULL_SYMBOL, "BULL_SYMBOL", 0, GROUP_BULL | GROUP_SYMBOL),
    RegionInfo(1, PIN_P1_BULL_HEAD, "BULL_HEAD", 1, GROUP_BULL),
    RegionInfo(2, PIN_P1_BHARATHI_EYES, "BHARATHI_EYES", 2, GROUP_BHARATHI),
    RegionInfo(3, PIN_P1_BHARATHI_SYMBOL, "BHARATHI_SYMBOL", 3, GROUP_BHARATHI | GROUP_SYMBOL),
    RegionInfo(4, PIN_P1_BHARATHI_CLOTH, "BHARATHI_CLOTH", 4, GROUP_BHARATHI),

    RegionInfo(5, PIN_P2_CONTINENT_F, "CONTINENT_F", 0, GROUP_CONTINENT),
    RegionInfo(6, PIN_P2_VEENA_SYMBOL, "VEENA_SYMBOL", 1, GROUP_VEENA | GROUP_SYMBOL),
    RegionInfo(7, PIN_P2_VEENA_REST, "VEENA_REST", 2, GROUP_VEENA),
    RegionInfo(8, PIN_P2_DANCER_SYMBOL, "DANCER_SYMBOL", 3, GROUP_DANCER | GROUP_SYMBOL),
    RegionInfo(9, PIN_P2_DANCER_TOP, "DANCER_TOP", 4, GROUP_DANCER),
    RegionInfo(10, PIN_P2_DANCER_BOTTOM, "DANCER_BOTTOM", 5, GROUP_DANCER),

    RegionInfo(11, PIN_P3_CONTINENT_U, "CONTINENT_U", 0, GROUP_CONTINENT),
    RegionInfo(12, PIN_P3_RAAVANA_HEAD, "RAAVANA_HEAD_P3", 1, GROUP_RAAVANA | GROUP_RAAVANA_HEAD),
    RegionInfo(13, PIN_P3_VALLUVAR_SYMBOL, "VALLUVAR_SYMBOL", 2, GROUP_VALLUVAR | GROUP_SYMBOL),
    RegionInfo(14, PIN_P3_VALLUVAR_REST, "VALLUVAR_REST", 3, GROUP_VALLUVAR),
    RegionInfo(15, PIN_P3_CONTINENT_C, "CONTINENT_C", 4, GROUP_CONTINENT),

    RegionInfo(16, PIN_P4_RAAVANA_HEAD_SYMBOL, "RAAVANA_HEAD_SYMBOL", 0,
               GROUP_RAAVANA | GROUP_RAAVANA_HEAD | GROUP_SYMBOL),
    RegionInfo(17, PIN_P4_RAAVANA_HEAD_REST, "RAAVANA_HEAD_REST", 1, GROUP_RAAVANA | GROUP_RAAVANA_HEAD),
    RegionInfo(18, PIN_P4_RAAVANA_CORE, "RAAVANA_CORE", 2, GROUP_RAAVANA),
    RegionInfo(19, PIN_P4_RAAVANA_TORSO, "RAAVANA_TORSO", 3, GROUP_RAAVANA)]

  /** `regionConfig` of a panel build, written out per `PANEL_ID`. */
  function RegionConfig(p: PanelId): seq<RegionInfo> {
    match p
    case 1 => [
      RegionInfo(0, PIN_P1_BULL_SYMBOL, "BULL_SYMBOL", 0, GROUP_BULL | GROUP_SYMBOL),
      RegionInfo(1, PIN_P1_BULL_HEAD, "BULL_HEAD", 1, GROUP_BULL),
      RegionInfo(2, PIN_P1_BHARATHI_EYES, "BHARATHI_EYES", 2, GROUP_BHARATHI),
      RegionInfo(3, PIN_P1_BHARATHI_SYMBOL, "BHARATHI_SYMBOL", 3, GROUP_BHARATHI | GROUP_SYMBOL),
      RegionInfo(4, PIN_P1_BHARATHI_CLOTH, "BHARATHI_CLOTH", 4, GROUP_BHARATHI)]
    case 2 => [
      RegionInfo(5, PIN_P2_CONTINENT_F, "CONTINENT_F", 0, GROUP_CONTINENT),
      RegionInfo(6, PIN_P2_VEENA_SYMBOL, "VEENA_SYMBOL", 1, GROUP_VEENA | GROUP_SYMBOL),
      RegionInfo(7, PIN_P2_VEENA_REST, "VEENA_REST", 2, GROUP_VEENA),
      RegionInfo(8, PIN_P2_DANCER_SYMBOL, "DANCER_SYMBOL", 3, GROUP_DANCER | GROUP_SYMBOL),
      RegionInfo(9, PIN_P2_DANCER_TOP, "DANCER_TOP", 4, GROUP_DANCER),
      RegionInfo(10, PIN_P2_DANCER_BOTTOM, "DANCER_BOTTOM", 5, GROUP_DANCER)]
    case 3 => [
      RegionInfo(11, PIN_P3_CONTINENT_U, "CONTINENT_U", 0, GROUP_CONTINENT),
      RegionInfo(12, PIN_P3_RAAVANA_HEAD, "RAAVANA_HEAD_P3", 1, GROUP_RAAVANA | GROUP_RAAVANA_HEAD),
      RegionInfo(13, PIN_P3_VALLUVAR_SYMBOL, "VALLUVAR_SYMBOL", 2, GROUP_VALLUVAR | GROUP_SYMBOL),
      RegionInfo(14, PIN_P3_VALLUVAR_REST, "VALLUVAR_REST", 3, GROUP_VALLUVAR),
      RegionInfo(15, PIN_P3_CONTINENT_C, "CONTINENT_C", 4, GROUP_CONTINENT)]
    case 4 => [
      RegionInfo(16, PIN_P4_RAAVANA_HEAD_SYMBOL, "RAAVANA_HEAD_SYMBOL", 0,
                 GROUP_RAAVANA | GROUP_RAAVANA_HEAD | GROUP_SYMBOL),
      RegionInfo(17, PIN_P4_RAAVANA_HEAD_REST, "RAAVANA_HEAD_REST", 1, GROUP_RAAVANA | GROUP_RAAVANA_HEAD),
      RegionInfo(18, PIN_P4_RAAVANA_CORE, "RAAVANA_CORE", 2, GROUP_RAAVANA),
      RegionInfo(19, PIN_P4_RAAVANA_TORSO, "RAAVANA_TORSO", 3, GROUP_RAAVANA)]
  }

  /** `NUM_REGIONS` of a panel build. */
  function NumRegions(p: PanelId): nat {
    |RegionConfig(p)|
  }

  /** The coordinator's copies of the per-panel counts and their prefix sums. */
  const PANEL_REGION_COUNTS: seq<Byte> := [5, 6, 5, 4]
  const PANEL_REGION_OFFSETS: seq<Byte> := [0, 5, 11, 16, 20]

  // ---------------------------------------------------------------------
  // Bounds-checked getters of a panel build: an index past the panel's
  // regions yields a sentinel instead of reading past the table.
  // ---------------------------------------------------------------------

  function GetRegionName(p: PanelId, index: Byte): (name: string)
    ensures index >= NumRegions(p) ==> name == "INVALID"
    ensures index < NumRegions(p) ==> name == ALL_REGIONS[PANEL_REGION_OFFSETS[p - 1] + index].name
  {
    RegionConfigIsSlice(p);
    if index >= NumRegions(p) then "INVALID" else RegionConfig(p)[index].name
  }

  function GetRegionPin(p: PanelId, index: Byte): (pin: Byte)
    ensures index >= NumRegions(p) ==> pin == 0
    ensures index < NumRegions(p) ==> pin == ALL_REGIONS[PANEL_REGION_OFFSETS[p - 1] + index].pin
  {
    RegionConfigIsSlice(p);
    if index >= NumRegions(p) then 0 else RegionConfig(p)[index].pin
  }

  function GetRegionVerticalPos(p: PanelId, index: Byte): (pos: Byte)
    ensures index >= NumRegions(p) ==> pos == 0xFF
    ensures index < NumRegions(p) ==> pos == index
  {
    RegionConfigPositions(p);
    if index >= NumRegions(p) then 0xFF else RegionConfig(p)[index].verticalPos
  }

  function GetRegionGlobalIndex(p: PanelId, index: Byte): (g: Byte)
    ensures index >= NumRegions(p) ==> g == 0xFF
    ensures index < NumRegions(p) ==> g == PANEL_REGION_OFFSETS[p - 1] + index
  {
    RegionConfigIsSlice(p);
    GlobalIndexIsPosition();
    if index >= NumRegions(p) then 0xFF else RegionConfig(p)[index].globalIndex
  }

  function GetRegionGroups(p: PanelId, index: Byte): (groups: bv16)
    ensures index >= NumRegions(p) ==> groups == GROUP_NONE
    ensures index < NumRegions(p) ==> groups == ALL_REGIONS[PANEL_REGION_OFFSETS[p - 1] + index].groups
  {
    RegionConfigIsSlice(p);
    if index >= NumRegions(p) then GROUP_NONE else RegionConfig(p)[index].groups
  }

  // ---------------------------------------------------------------------
  // Table facts
  // ---------------------------------------------------------------------

  /** The table is indexed by its own `globalIndex` field. */
  lemma GlobalIndexIsPosition()
    ensures |ALL_REGIONS| == MAX_REGIONS
    ensures forall i :: 0 <= i < |ALL_REGIONS| ==> ALL_REGIONS[i].globalIndex == i
  {
  }

  /** Each panel's table is its slice of the global table, delimited by the
      offset table, and its length is the count table's entry. */
  lemma RegionConfigIsSlice(p: PanelId)
    ensures |PANEL_REGION_OFFSETS| == 5 && |PANEL_REGION_COUNTS| == 4
    ensures PANEL_REGION_OFFSETS[p - 1] <= PANEL_REGION_OFFSETS[p] <= |ALL_REGIONS|
    ensures RegionConfig(p) == ALL_REGIONS[PANEL_REGION_OFFSETS[p - 1]..PANEL_REGION_OFFSETS[p]]
    ensures NumRegions(p) == PANEL_REGION_COUNTS[p - 1]
  {
    match p
    case 1 => SliceOfPanel1();
    case 2 => SliceOfPanel2();
    case 3 => SliceOfPanel3();
    case 4 => SliceOfPanel4();
  }

  lemma SliceOfPanel1()
    ensures RegionConfig(1) == ALL_REGIONS[0..5]
  {
    forall i | 0 <= i < 5
      ensures RegionConfig(1)[i] == ALL_REGIONS[i]
    {
      assert i == 0 || i == 1 || i == 2 || i == 3 || i == 4;
    }
  }

  lemma SliceOfPanel2()
    ensures RegionConfig(2) == ALL_REGIONS[5..11]
  {
    forall i | 0 <= i < 6
      ensures RegionConfig(2)[i] == ALL_REGIONS[5 + i]
    {
      assert i == 0 || i == 1 || i == 2 || i == 3 || i == 4 || i == 5;
    }
  }

  lemma SliceOfPanel3()
    ensures RegionConfig(3) == ALL_REGIONS[11..16]
  {
    forall i | 0 <= i < 5
      ensures RegionConfig(3)[i] == ALL_REGIONS[11 + i]
    {
      assert i == 0 || i == 1 || i == 2 || i == 3 || i == 4;
    }
  }

  lemma SliceOfPanel4()
    ensures RegionConfig(4) == ALL_REGIONS[16..20]
  {
    forall i | 0 <= i < 4
      ensures RegionConfig(4)[i] == ALL_REGIONS[16 + i]
    {
      assert i == 0 || i == 1 || i == 2 || i == 3;
    }
  }

  /** Within a panel, the vertical position of entry i is i. */
  lemma RegionConfigPositions(p: PanelId)
    ensures forall i :: 0 <= i < NumRegions(p) ==> RegionConfig(p)[i].verticalPos == i
  {
  }

  /** The tags are non-zero, single bits, and pairwise disjoint; all of them
      fit below bit 9 of the 16-bit `groups` field. */
  lemma GroupTagsAreDistinctBits()
    ensures forall i :: 0 <= i < |GROUP_TAGS| ==>
              GROUP_TAGS[i] != 0 && GROUP_TAGS[i] & (GROUP_TAGS[i] - 1) == 0 && GROUP_TAGS[i] < 1 << 9
    ensures forall i, j :: 0 <= i < j < |GROUP_TAGS| ==> GROUP_TAGS[i] & GROUP_TAGS[j] == 0
  {
  }

  // ---------------------------------------------------------------------
  // RegionGroups::getByGroup / getCount
  // ---------------------------------------------------------------------

  /** `groups & mask` is non-zero: the two share a tag. */
  predicate Overlaps(groups: bv16, mask: bv16) {
    groups & mask != 0
  }

  /** Entry `i` of `table` carries at least one of the tags in `mask`. */
  predicate InGroup(table: seq<RegionInfo>, i: nat, mask: bv16)
    requires i < |table|
  {
    Overlaps(table[i].groups, mask)
  }

  predicate StrictlyAscending(s: seq<int>) {
    forall i, j :: 0 <= i < j < |s| ==> s[i] < s[j]
  }

  /** The indices below `upto` whose entry carries a tag of `mask`, in the
      order the coordinator's scan appends them. */
  function Selected(table: seq<RegionInfo>, mask: bv16, upto: nat): (r: seq<Byte>)
    requires upto <= |table| <= MAX_REGIONS
    ensures |r| <= upto
    ensures StrictlyAscending(r)
    ensures forall k :: 0 <= k < |r| ==> r[k] < upto
    ensures forall i :: 0 <= i < upto ==> (i in r <==> InGroup(table, i, mask))
  {
    if upto == 0 then []
    else
      var prefix := Selected(table, mask, upto - 1);
      if InGroup(table, upto - 1, mask) then prefix + [upto - 1] else prefix
  }

  /** What `getByGroup(mask, buffer, count)` leaves in `buffer[0..count)`:
      the scan over the installation's table. */
  function ByGroup(mask: bv16): seq<Byte> {
    Selected(ALL_REGIONS, mask, MAX_REGIONS)
  }

  /** `getByGroup` as the firmware writes it: one pass over the region
      table (the firmware's is `ALL_REGIONS`), appending every index whose
      entry carries a tag of `groupMask`. */
  method GetByGroup(table: seq<RegionInfo>, groupMask: bv16) returns (buffer: seq<Byte>)
    requires |table| == MAX_REGIONS
    ensures |buffer| <= MAX_REGIONS
    ensures StrictlyAscending(buffer)
    ensures forall k :: 0 <= k < |buffer| ==> buffer[k] < MAX_REGIONS
    ensures forall i :: 0 <= i < MAX_REGIONS ==> (i in buffer <==> Overlaps(table[i].groups, groupMask))
    ensures |buffer| == |Members(table, groupMask, MAX_REGIONS)|
  {
    buffer := [];
    var i := 0;
    while i < MAX_REGIONS
      invariant 0 <= i <= MAX_REGIONS
      invariant buffer == Selected(table, groupMask, i)
    {
      if Overlaps(table[i].groups, groupMask) {
        buffer := buffer + [i];
      }
      assert buffer == Selected(table, groupMask, i + 1);
      i := i + 1;
    }
    SelectedCountsMembers(table, groupMask, MAX_REGIONS);
  }

  /** The indices below `upto` whose entry carries a tag of `mask`. */
  function Members(table: seq<RegionInfo>, mask: bv16, upto: nat): set<int>
    requires upto <= |table|
  {
    set i | 0 <= i < upto && InGroup(table, i, mask)
  }

  /** The scan lists each member exactly once. */
  lemma {:induction false} SelectedCountsMembers(table: seq<RegionInfo>, mask: bv16, upto: nat)
    requires upto <= |table| <= MAX_REGIONS
    ensures |Selected(table, mask, upto)| == |Members(table, mask, upto)|
  {
    if upto == 0 {
      assert Members(table, mask, 0) == {};
    } else {
      SelectedCountsMembers(table, mask, upto - 1);
      MembersStep(table, mask, upto);
    }
  }

  /** Extending the scan by one entry adds that entry when it is tagged. */
  lemma MembersStep(table: seq<RegionInfo>, mask: bv16, upto: nat)
    requires 0 < upto <= |table|
    ensures InGroup(table, upto - 1, mask) ==>
              |Members(table, mask, upto)| == |Members(table, mask, upto - 1)| + 1
    ensures !InGroup(table, upto - 1, mask) ==>
              Members(table, mask, upto) == Members(table, mask, upto - 1)
  {
    var prev := Members(table, mask, upto - 1);
    var next := Members(table, mask, upto);
    if InGroup(table, upto - 1, mask) {
      assert next == prev + {upto - 1};
      assert upto - 1 !in prev;
    }
  }

  /** `getCount` as the firmware writes it: the number of regions carrying
      a tag of `groupMask`, which is how many `getByGroup` lists. */
  method GetCount(table: seq<RegionInfo>, groupMask: bv16) returns (count: Byte)
    requires |table| == MAX_REGIONS
    ensures count == |Members(table, groupMask, MAX_REGIONS)|
    ensures count == |Selected(table, groupMask, MAX_REGIONS)|
    ensures count <= MAX_REGIONS
  {
    count := 0;
    var i := 0;
    while i < MAX_REGIONS
      invariant 0 <= i <= MAX_REGIONS
      invariant count == |Selected(table, groupMask, i)|
    {
      if Overlaps(table[i].groups, groupMask) {
        count := count + 1;
      }
      i := i + 1;
    }
    SelectedCountsMembers(table, groupMask, MAX_REGIONS);
  }

  /** The first element of an ascending sequence is its least. */
  lemma AscendingHeadIsLeast(s: seq<int>, x: int)
    requires StrictlyAscending(s) && x in s
    ensures s[0] <= x
  {
    var j :| 0 <= j < |s| && s[j] == x;
    if j > 0 {
      assert s[0] < s[j];
    }
  }

  /** Two ascending sequences with the same elements are equal. */
  lemma {:induction false} AscendingUnique(a: seq<int>, b: seq<int>)
    requires StrictlyAscending(a) && StrictlyAscending(b)
    requires forall x :: x in a <==> x in b
    ensures a == b
    decreases |a|
  {
    if a == [] {
      NoMembersIsEmpty(b);
    } else {
      assert a[0] in a;
      assert b[0] in b;
      AscendingHeadIsLeast(a, b[0]);
      AscendingHeadIsLeast(b, a[0]);
      AscendingTails(a, b);
      AscendingUnique(a[1..], b[1..]);
      assert a == [a[0]] + a[1..];
      assert b == [b[0]] + b[1..];
    }
  }

  lemma NoMembersIsEmpty(b: seq<int>)
    requires forall x :: x !in b
    ensures b == []
  {
    forall x
      ensures multiset(b)[x] == 0
    {
      assert x !in b;
    }
    assert multiset(b) == multiset{};
  }

  /** Removing the common least element leaves the same elements. */
  lemma AscendingTails(a: seq<int>, b: seq<int>)
    requires StrictlyAscending(a) && StrictlyAscending(b)
    requires |a| > 0 && |b| > 0 && a[0] == b[0]
    requires forall x :: x in a <==> x in b
    ensures forall x :: x in a[1..] <==> x in b[1..]
  {
    forall x
      ensures x in a[1..] ==> x in b[1..]
    {
      if x in a[1..] {
        var j :| 1 <= j < |a| && a[j] == x;
        assert a[0] < a[j];
        assert x in b;
        assert b == [b[0]] + b[1..];
      }
    }
    forall x
      ensures x in b[1..] ==> x in a[1..]
    {
      if x in b[1..] {
        var j :| 1 <= j < |b| && b[j] == x;
        assert b[0] < b[j];
        assert x in a;
        assert a == [a[0]] + a[1..];
      }
    }
  }

  /** Only indices of the table are ever listed. */
  lemma SelectedIndices(table: seq<RegionInfo>, mask: bv16, x: int)
    requires |table| <= MAX_REGIONS
    requires x in Selected(table, mask, |table|)
    ensures 0 <= x < |table|
  {
    var r := Selected(table, mask, |table|);
    var k :| 0 <= k < |r| && r[k] == x;
  }

  /** The lookup is determined by which regions carry a tag of `mask`:
      it is the ascending listing of exactly those. */
  lemma ByGroupIsTheAscendingMembers(mask: bv16, expected: seq<int>, members: set<int>)
    requires StrictlyAscending(expected)
    requires forall x :: x in expected <==> x in members
    requires forall x :: x in members ==> 0 <= x < MAX_REGIONS
    requires forall i :: 0 <= i < MAX_REGIONS ==> (InGroup(ALL_REGIONS, i, mask) <==> i in members)
    ensures ByGroup(mask) == expected
  {
    var r := ByGroup(mask);
    forall x | x in r
      ensures 0 <= x < MAX_REGIONS
    {
      SelectedIndices(ALL_REGIONS, mask, x);
    }
    AscendingUnique(r, expected);
  }

  /** Every index of the table is one of 0..19. */
  lemma Enumerate(i: int)
    requires 0 <= i < MAX_REGIONS
    ensures i == 0 || i == 1 || i == 2 || i == 3 || i == 4 || i == 5 || i == 6 || i == 7 || i == 8 || i == 9
         || i == 10 || i == 11 || i == 12 || i == 13 || i == 14 || i == 15 || i == 16 || i == 17 || i == 18 || i == 19
  {
  }

  lemma AndDistributes(g: bv16, m1: bv16, m2: bv16)
    ensures Overlaps(g, m1 | m2) <==> Overlaps(g, m1) || Overlaps(g, m2)
  {
    assert g & (m1 | m2) == (g & m1) | (g & m2);
  }

  /** The lookup is a union of tags: asking for several tags at once yields
      the regions of either, for any table. */
  lemma SelectedUnion(table: seq<RegionInfo>, m1: bv16, m2: bv16)
    requires |table| <= MAX_REGIONS
    ensures forall i :: i in Selected(table, m1 | m2, |table|) <==>
                        i in Selected(table, m1, |table|) || i in Selected(table, m2, |table|)
  {
    var n := |table|;
    var u, a, b := Selected(table, m1 | m2, n), Selected(table, m1, n), Selected(table, m2, n);
    forall i
      ensures i in u <==> i in a || i in b
    {
      if 0 <= i < n {
        AndDistributes(table[i].groups, m1, m2);
      } else {
        if i in u { SelectedIndices(table, m1 | m2, i); }
        if i in a { SelectedIndices(table, m1, i); }
        if i in b { SelectedIndices(table, m2, i); }
      }
    }
  }

  lemma NoneOverlapsNothing(g: bv16)
    ensures !Overlaps(g, GROUP_NONE)
  {
  }

  /** No tag, no regions. */
  lemma ByGroupNone()
    ensures ByGroup(GROUP_NONE) == []
  {
    forall i | 0 <= i < MAX_REGIONS
      ensures !InGroup(ALL_REGIONS, i, GROUP_NONE)
    {
      NoneOverlapsNothing(ALL_REGIONS[i].groups);
    }
    ByGroupIsTheAscendingMembers(GROUP_NONE, [], {});
  }

  lemma ByGroupSymbol()
    ensures ByGroup(GROUP_SYMBOL) == [0, 3, 6, 8, 13, 16]
  {
    forall i | 0 <= i < MAX_REGIONS
      ensures InGroup(ALL_REGIONS, i, GROUP_SYMBOL) <==> i in {0, 3, 6, 8, 13, 16}
    {
      Enumerate(i);
    }
    ByGroupIsTheAscendingMembers(GROUP_SYMBOL, [0, 3, 6, 8, 13, 16], {0, 3, 6, 8, 13, 16});
  }

  lemma ByGroupRaavanaHead()
    ensures ByGroup(GROUP_RAAVANA_HEAD) == [12, 16, 17]
  {
    forall i | 0 <= i < MAX_REGIONS
      ensures InGroup(ALL_REGIONS, i, GROUP_RAAVANA_HEAD) <==> i in {12, 16, 17}
    {
      Enumerate(i);
    }
    ByGroupIsTheAscendingMembers(GROUP_RAAVANA_HEAD, [12, 16, 17], {12, 16, 17});
  }

  lemma ByGroupRaavana()
    ensures ByGroup(GROUP_RAAVANA) == [12, 16, 17, 18, 19]
  {
    forall i | 0 <= i < MAX_REGIONS
      ensures InGroup(ALL_REGIONS, i, GROUP_RAAVANA) <==> i in {12, 16, 17, 18, 19}
    {
      Enumerate(i);
    }
    ByGroupIsTheAscendingMembers(GROUP_RAAVANA, [12, 16, 17, 18, 19], {12, 16, 17, 18, 19});
  }

  lemma ByGroupContinent()
    ensures ByGroup(GROUP_CONTINENT) == [5, 11, 15]
  {
    forall i | 0 <= i < MAX_REGIONS
      ensures InGroup(ALL_REGIONS, i, GROUP_CONTINENT) <==> i in {5, 11, 15}
    {
      Enumerate(i);
    }
    ByGroupIsTheAscendingMembers(GROUP_CONTINENT, [5, 11, 15], {5, 11, 15});
  }
}
