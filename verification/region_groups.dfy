/** The coordinator's hand-written group index arrays and panel offset
    table (include/region_groups.h), and how they line up with the group
    lookup over the global region table. */
module RegionGroups {
  import opened Machine
  import opened Common
  import Config

  const SYMBOL_REGIONS: seq<Byte> := [0, 3, 6, 8, 13]
  const SYMBOL_COUNT: Byte := 5

  const RAAVANA_HEAD_REGIONS: seq<Byte> := [12, 16, 17]
  const RAAVANA_HEAD_COUNT: Byte := 3

  const RAAVANA_REGIONS: seq<Byte> := [12, 16, 17, 18, 19]
  const RAAVANA_COUNT: Byte := 5

  const CONTINENT_REGIONS: seq<Byte> := [5, 11, 15]
  const CONTINENT_COUNT: Byte := 3

  const PANEL_REGION_COUNTS: seq<Byte> := [5, 6, 5, 4]
  const PANEL_REGION_OFFSETS: seq<Byte> := [0, 5, 11, 16, 20]

  /** A usable index array: strictly ascending and inside the global table. */
  predicate IndexArray(s: seq<Byte>) {
    Config.StrictlyAscending(s) && forall k :: 0 <= k < |s| ==> s[k] < MAX_REGIONS
  }

  /** Each group array is ascending, within range, and as long as its count. */
  lemma ArraysWellFormed()
    ensures IndexArray(SYMBOL_REGIONS) && |SYMBOL_REGIONS| == SYMBOL_COUNT
    ensures IndexArray(RAAVANA_HEAD_REGIONS) && |RAAVANA_HEAD_REGIONS| == RAAVANA_HEAD_COUNT
    ensures IndexArray(RAAVANA_REGIONS) && |RAAVANA_REGIONS| == RAAVANA_COUNT
    ensures IndexArray(CONTINENT_REGIONS) && |CONTINENT_REGIONS| == CONTINENT_COUNT
  {
  }

  /** The offsets are the prefix sums of the counts, ending at the size of
      the global table; they agree with the copies in include/config.h. */
  lemma OffsetsArePrefixSums()
    ensures |PANEL_REGION_OFFSETS| == |PANEL_REGION_COUNTS| + 1
    ensures PANEL_REGION_OFFSETS[0] == 0
    ensures forall k :: 0 <= k < |PANEL_REGION_COUNTS| ==>
              PANEL_REGION_OFFSETS[k + 1] == PANEL_REGION_OFFSETS[k] + PANEL_REGION_COUNTS[k]
    ensures PANEL_REGION_OFFSETS[|PANEL_REGION_COUNTS|] == MAX_REGIONS
    ensures PANEL_REGION_COUNTS == Config.PANEL_REGION_COUNTS
    ensures PANEL_REGION_OFFSETS == Config.PANEL_REGION_OFFSETS
  {
  }

  /** The panels' region counts are the firmware's `NUM_REGIONS`. */
  lemma CountsMatchPanelBuilds(p: PanelId)
    ensures PANEL_REGION_COUNTS[p - 1] == Config.NumRegions(p)
  {
    Config.RegionConfigIsSlice(p);
  }

  /** Every region of the Raavana head is part of Raavana. */
  lemma HeadWithinRaavana()
    ensures forall x :: x in RAAVANA_HEAD_REGIONS ==> x in RAAVANA_REGIONS
  {
  }

  /** Three of the arrays are exactly what the lookup over the global table
      returns for the same tag. */
  lemma ArraysMatchLookup()
    ensures Config.ByGroup(Config.GROUP_RAAVANA_HEAD) == RAAVANA_HEAD_REGIONS
    ensures Config.ByGroup(Config.GROUP_RAAVANA) == RAAVANA_REGIONS
    ensures Config.ByGroup(Config.GROUP_CONTINENT) == CONTINENT_REGIONS
  {
    Config.ByGroupRaavanaHead();
    Config.ByGroupRaavana();
    Config.ByGroupContinent();
  }

  /** The symbol array does not: the global table also tags region 16
      (RAAVANA_HEAD_SYMBOL) as a symbol, and the array leaves it out. */
  lemma SymbolArrayMissesRegion16()
    ensures 16 in Config.ByGroup(Config.GROUP_SYMBOL)
    ensures 16 !in SYMBOL_REGIONS
    ensures Config.ByGroup(Config.GROUP_SYMBOL) != SYMBOL_REGIONS
  {
    Config.ByGroupSymbol();
  }

  /** Region 16 is the only difference: the lookup is the array with 16
      appended. */
  lemma SymbolLookupIsArrayPlus16()
    ensures Config.ByGroup(Config.GROUP_SYMBOL) == SYMBOL_REGIONS + [16]
  {
    Config.ByGroupSymbol();
  }

  /** The symbol array as the global table tags the symbols, region 16
      (RAAVANA_HEAD_SYMBOL) included. */
  const SYMBOL_REGIONS_CORRECTED: seq<Byte> := [0, 3, 6, 8, 13, 16]
  const SYMBOL_COUNT_CORRECTED: Byte := 6

  /** The corrected array is well formed, as long as its count, and equal
      to the lookup for the symbol tag, like the other three arrays. */
  lemma CorrectedSymbolArrayMatchesLookup()
    ensures IndexArray(SYMBOL_REGIONS_CORRECTED) && |SYMBOL_REGIONS_CORRECTED| == SYMBOL_COUNT_CORRECTED
    ensures Config.ByGroup(Config.GROUP_SYMBOL) == SYMBOL_REGIONS_CORRECTED
  {
    Config.ByGroupSymbol();
  }
}
