/** The panel firmware's own region table: per-panel entries tagged with a
    panel-local group and at most one cross-panel group, and the
    bounds-checked getters over it (include/panel_config.h). */
module PanelConfig {
  import opened Machine
  import opened Common
  import Config

  /** `LocalGroup`: groups whose meaning is confined to one panel. */
  const LGROUP_BULL: Byte := 0
  const LGROUP_BHARATHI: Byte := 1
  const LGROUP_VEENA: Byte := 2
  const LGROUP_DANCER: Byte := 3
  const LGROUP_VALLUVAR: Byte := 4
  const LGROUP_RAAVANA_LOCAL: Byte := 5
  const LGROUP_NONE: Byte := 0xFF

  /** `CrossPanelGroup`: groups that span panels. */
  const XGROUP_SYMBOL: Byte := 0
  const XGROUP_RAAVANA: Byte := 1
  const XGROUP_RAAVANA_HEAD: Byte := 2
  const XGROUP_CONTINENT: Byte := 3
  const XGROUP_NONE: Byte := 0xFF

  datatype RegionInfo = RegionInfo(pin: Byte, name: string, verticalPos: Byte, localGroup: Byte, crossPanelGroup: Byte)

  /** `regionConfig` of a panel build, per `PANEL_ID`. */
  function RegionConfig(p: PanelId): seq<RegionInfo> {
    match p
    case 1 => [
      RegionInfo(25, "BULL_SYMBOL", 0, LGROUP_BULL, XGROUP_SYMBOL),
      RegionInfo(26, "BULL_HEAD", 1, LGROUP_BULL, XGROUP_NONE),
      RegionInfo(27, "BHARATHI_EYES", 2, LGROUP_BHARATHI, XGROUP_NONE),
      RegionInfo(14, "BHARATHI_SYMBOL", 3, LGROUP_BHARATHI, XGROUP_SYMBOL),
      RegionInfo(12, "BHARATHI_CLOTH", 4, LGROUP_BHARATHI, XGROUP_NONE)]
    case 2 => [
      RegionInfo(25, "CONTINENT_F", 0, LGROUP_NONE, XGROUP_CONTINENT),
      RegionInfo(26, "VEENA_SYMBOL", 1, LGROUP_VEENA, XGROUP_SYMBOL),
      RegionInfo(27, "VEENA_REST", 2, LGROUP_VEENA, XGROUP_NONE),
      RegionInfo(14, "DANCER_SYMBOL", 3, LGROUP_DANCER, XGROUP_SYMBOL),
      RegionInfo(12, "DANCER_TOP", 4, LGROUP_DANCER, XGROUP_NONE),
      RegionInfo(13, "DANCER_BOTTOM", 5, LGROUP_DANCER, XGROUP_NONE)]
    case 3 => [
      RegionInfo(25, "CONTINENT_U", 0, LGROUP_NONE, XGROUP_CONTINENT),
      RegionInfo(26, "RAAVANA_HEAD_P3", 1, LGROUP_RAAVANA_LOCAL, XGROUP_RAAVANA_HEAD),
      RegionInfo(27, "VALLUVAR_SYMBOL", 2, LGROUP_VALLUVAR, XGROUP_SYMBOL),
      RegionInfo(14, "VALLUVAR_REST", 3, LGROUP_VALLUVAR, XGROUP_NONE),
      RegionInfo(12, "CONTINENT_C", 4, LGROUP_NONE, XGROUP_CONTINENT)]
    case 4 => [
      RegionInfo(25, "RAAVANA_HEAD_SYMBOL", 0, LGROUP_RAAVANA_LOCAL, XGROUP_RAAVANA_HEAD),
      RegionInfo(26, "RAAVANA_HEAD_REST", 1, LGROUP_RAAVANA_LOCAL, XGROUP_RAAVANA_HEAD),
      RegionInfo(27, "RAAVANA_CORE", 2, LGROUP_RAAVANA_LOCAL, XGROUP_RAAVANA),
      RegionInfo(14, "RAAVANA_TORSO", 3, LGROUP_RAAVANA_LOCAL, XGROUP_RAAVANA)]
  }

  /** `NUM_REGIONS` of a panel build. */
  function NumRegions(p: PanelId): (n: nat)
    ensures 1 <= n <= MAX_REGIONS
    ensures n == Config.NumRegions(p)
  {
    |RegionConfig(p)|
  }

  /** The table sizes are 5, 6, 5 and 4, and entry i sits at vertical
      position i. */
  lemma TableShape(p: PanelId)
    ensures NumRegions(p) == [5, 6, 5, 4][p - 1]
    ensures forall i :: 0 <= i < NumRegions(p) ==> RegionConfig(p)[i].verticalPos == i
  {
  }

  /** No two regions of one panel share a GPIO pin. */
  lemma PinsDistinct(p: PanelId)
    ensures forall i, j :: 0 <= i < j < NumRegions(p) ==> RegionConfig(p)[i].pin != RegionConfig(p)[j].pin
  {
  }

  /** The "no group" sentinels cannot be mistaken for a real group id. */
  lemma SentinelsAreNotGroups()
    ensures LGROUP_NONE !in {LGROUP_BULL, LGROUP_BHARATHI, LGROUP_VEENA, LGROUP_DANCER, LGROUP_VALLUVAR, LGROUP_RAAVANA_LOCAL}
    ensures XGROUP_NONE !in {XGROUP_SYMBOL, XGROUP_RAAVANA, XGROUP_RAAVANA_HEAD, XGROUP_CONTINENT}
  {
  }

  // ---------------------------------------------------------------------
  // Bounds-checked getters
  // ---------------------------------------------------------------------

  function GetRegionName(p: PanelId, index: Byte): (name: string)
    ensures index >= NumRegions(p) ==> name == "INVALID"
    ensures index < NumRegions(p) ==> name == Config.ALL_REGIONS[Config.PANEL_REGION_OFFSETS[p - 1] + index].name
  {
    AgreesWithGlobalTable(p);
    if index >= NumRegions(p) then "INVALID" else RegionConfig(p)[index].name
  }

  function GetRegionPin(p: PanelId, index: Byte): (pin: Byte)
    ensures index >= NumRegions(p) ==> pin == 0
    ensures index < NumRegions(p) ==> pin == Config.ALL_REGIONS[Config.PANEL_REGION_OFFSETS[p - 1] + index].pin
  {
    AgreesWithGlobalTable(p);
    if index >= NumRegions(p) then 0 else RegionConfig(p)[index].pin
  }

  function GetRegionVerticalPos(p: PanelId, index: Byte): (pos: Byte)
    ensures index >= NumRegions(p) ==> pos == 0xFF
    ensures index < NumRegions(p) ==> pos == index
  {
    TableShape(p);
    if index >= NumRegions(p) then 0xFF else RegionConfig(p)[index].verticalPos
  }

  function GetRegionLocalGroup(p: PanelId, index: Byte): (g: Byte)
    ensures index >= NumRegions(p) ==> g == LGROUP_NONE
    ensures index < NumRegions(p) ==> (g != LGROUP_NONE <==> HasLocalTag(GlobalGroups(p, index)))
    ensures g != LGROUP_NONE ==>
              && index < NumRegions(p)
              && g <= LGROUP_RAAVANA_LOCAL
              && LocalTag(g) == LocalTags(GlobalGroups(p, index))
  {
    if index >= NumRegions(p) then LGROUP_NONE
    else
      GroupsAgreeAt(p, index);
      RegionConfig(p)[index].localGroup
  }

  function GetRegionCrossPanelGroup(p: PanelId, index: Byte): (g: Byte)
    ensures index >= NumRegions(p) ==> g == XGROUP_NONE
    ensures index < NumRegions(p) ==> (g != XGROUP_NONE <==> HasCrossTag(GlobalGroups(p, index)))
    ensures g != XGROUP_NONE ==>
              && index < NumRegions(p)
              && g <= XGROUP_CONTINENT
              && Carries(GlobalGroups(p, index), CrossTag(g))
  {
    if index >= NumRegions(p) then XGROUP_NONE
    else
      GroupsAgreeAt(p, index);
      RegionConfig(p)[index].crossPanelGroup
  }

  // ---------------------------------------------------------------------
  // Consistency with the coordinator's table
  // ---------------------------------------------------------------------

  /** The coordinator's tag for a local group id. */
  function LocalTag(g: Byte): bv16 {
    if g == LGROUP_BULL then Config.GROUP_BULL
    else if g == LGROUP_BHARATHI then Config.GROUP_BHARATHI
    else if g == LGROUP_VEENA then Config.GROUP_VEENA
    else if g == LGROUP_DANCER then Config.GROUP_DANCER
    else if g == LGROUP_VALLUVAR then Config.GROUP_VALLUVAR
    else if g == LGROUP_RAAVANA_LOCAL then Config.GROUP_RAAVANA
    else Config.GROUP_NONE
  }

  /** The coordinator's tag for a cross-panel group id. */
  function CrossTag(g: Byte): bv16 {
    if g == XGROUP_SYMBOL then Config.GROUP_SYMBOL
    else if g == XGROUP_RAAVANA then Config.GROUP_RAAVANA
    else if g == XGROUP_RAAVANA_HEAD then Config.GROUP_RAAVANA_HEAD
    else if g == XGROUP_CONTINENT then Config.GROUP_CONTINENT
    else Config.GROUP_NONE
  }

  /** The tags the coordinator's table gives entry `i` of panel `p`. */
  function GlobalGroups(p: PanelId, i: nat): bv16
    requires i < NumRegions(p)
  {
    Config.RegionConfig(p)[i].groups
  }

  /** The coordinator's tags that have a panel-local counterpart. */
  const LOCAL_TAGS: bv16 :=
    Config.GROUP_BULL | Config.GROUP_BHARATHI | Config.GROUP_VEENA
    | Config.GROUP_DANCER | Config.GROUP_VALLUVAR | Config.GROUP_RAAVANA

  /** The coordinator's tags that have a cross-panel counterpart. */
  const CROSS_TAGS: bv16 :=
    Config.GROUP_SYMBOL | Config.GROUP_RAAVANA | Config.GROUP_RAAVANA_HEAD | Config.GROUP_CONTINENT

  /** `groups` includes the tag `tag`. */
  predicate Carries(groups: bv16, tag: bv16) {
    groups & tag != 0
  }

  /** The local-group tags among `groups`. */
  function LocalTags(groups: bv16): bv16 {
    groups & LOCAL_TAGS
  }

  predicate HasLocalTag(groups: bv16) {
    LocalTags(groups) != 0
  }

  predicate HasCrossTag(groups: bv16) {
    groups & CROSS_TAGS != 0
  }

  /** Panel p's table lists, in order, the same pins, names and vertical
      positions as the panel's slice of the global table. */
  lemma AgreesWithGlobalTable(p: PanelId)
    ensures Config.NumRegions(p) == NumRegions(p)
    ensures Config.PANEL_REGION_OFFSETS[p - 1] + NumRegions(p) <= |Config.ALL_REGIONS|
    ensures forall i :: 0 <= i < NumRegions(p) ==>
              SameEntry(RegionConfig(p)[i], Config.ALL_REGIONS[Config.PANEL_REGION_OFFSETS[p - 1] + i])
  {
    Config.RegionConfigIsSlice(p);
    match p
    case 1 => SameEntriesOnPanel1();
    case 2 => SameEntriesOnPanel2();
    case 3 => SameEntriesOnPanel3();
    case 4 => SameEntriesOnPanel4();
  }

  /** A panel table entry and a coordinator table entry describe the same
      output: same pin, name and vertical position. */
  predicate SameEntry(local: RegionInfo, global: Config.RegionInfo) {
    local.pin == global.pin && local.name == global.name && local.verticalPos == global.verticalPos
  }

  lemma SameEntriesOnPanel1()
    ensures NumRegions(1) == Config.NumRegions(1) == 5
    ensures forall i :: 0 <= i < 5 ==> SameEntry(RegionConfig(1)[i], Config.RegionConfig(1)[i])
  {
    forall i | 0 <= i < 5
      ensures SameEntry(RegionConfig(1)[i], Config.RegionConfig(1)[i])
    {
      assert i == 0 || i == 1 || i == 2 || i == 3 || i == 4;
    }
  }

  lemma SameEntriesOnPanel2()
    ensures NumRegions(2) == Config.NumRegions(2) == 6
    ensures forall i :: 0 <= i < 6 ==> SameEntry(RegionConfig(2)[i], Config.RegionConfig(2)[i])
  {
    forall i | 0 <= i < 6
      ensures SameEntry(RegionConfig(2)[i], Config.RegionConfig(2)[i])
    {
      assert i == 0 || i == 1 || i == 2 || i == 3 || i == 4 || i == 5;
    }
  }

  lemma SameEntriesOnPanel3()
    ensures NumRegions(3) == Config.NumRegions(3) == 5
    ensures forall i :: 0 <= i < 5 ==> SameEntry(RegionConfig(3)[i], Config.RegionConfig(3)[i])
  {
    forall i | 0 <= i < 5
      ensures SameEntry(RegionConfig(3)[i], Config.RegionConfig(3)[i])
    {
      assert i == 0 || i == 1 || i == 2 || i == 3 || i == 4;
    }
  }

  lemma SameEntriesOnPanel4()
    ensures NumRegions(4) == Config.NumRegions(4) == 4
    ensures forall i :: 0 <= i < 4 ==> SameEntry(RegionConfig(4)[i], Config.RegionConfig(4)[i])
  {
    forall i | 0 <= i < 4
      ensures SameEntry(RegionConfig(4)[i], Config.RegionConfig(4)[i])
    {
      assert i == 0 || i == 1 || i == 2 || i == 3;
    }
  }

  /** Entry i of panel p's table and the coordinator's entry for the same
      region agree on groups: a local group id is given exactly when the
      region has a local tag, and it is that tag; a cross-panel group id is
      given exactly when the region has a cross-panel tag, and it is one of
      them. */
  predicate GroupsAgree(p: PanelId, i: nat)
    requires i < NumRegions(p)
  {
    var local := RegionConfig(p)[i];
    var groups := GlobalGroups(p, i);
    && (local.localGroup != LGROUP_NONE <==> HasLocalTag(groups))
    && (local.localGroup != LGROUP_NONE ==>
          local.localGroup <= LGROUP_RAAVANA_LOCAL && LocalTag(local.localGroup) == LocalTags(groups))
    && (local.crossPanelGroup != XGROUP_NONE <==> HasCrossTag(groups))
    && (local.crossPanelGroup != XGROUP_NONE ==>
          local.crossPanelGroup <= XGROUP_CONTINENT && Carries(groups, CrossTag(local.crossPanelGroup)))
  }

  /** Every group id a panel table assigns is one of the tags the
      coordinator's table gives that region. */
  lemma GroupsAgreeWithGlobalTable(p: PanelId)
    ensures Config.NumRegions(p) == NumRegions(p)
    ensures forall i :: 0 <= i < NumRegions(p) ==> GroupsAgree(p, i)
  {
    match p
    case 1 => GroupsAgreeOnPanel1();
    case 2 => GroupsAgreeOnPanel2();
    case 3 => GroupsAgreeOnPanel3();
    case 4 => GroupsAgreeOnPanel4();
  }

  lemma GroupsAgreeAt(p: PanelId, i: nat)
    requires i < NumRegions(p)
    ensures GroupsAgree(p, i)
  {
    GroupsAgreeWithGlobalTable(p);
  }

  lemma GroupsAgreeOnPanel1()
    ensures Config.NumRegions(1) == NumRegions(1) == 5
    ensures forall i :: 0 <= i < 5 ==> GroupsAgree(1, i)
  {
    forall i | 0 <= i < 5
      ensures GroupsAgree(1, i)
    {
      assert i == 0 || i == 1 || i == 2 || i == 3 || i == 4;
    }
  }

  lemma GroupsAgreeOnPanel2()
    ensures Config.NumRegions(2) == NumRegions(2) == 6
    ensures forall i :: 0 <= i < 6 ==> GroupsAgree(2, i)
  {
    forall i | 0 <= i < 6
      ensures GroupsAgree(2, i)
    {
      assert i == 0 || i == 1 || i == 2 || i == 3 || i == 4 || i == 5;
    }
  }

  lemma GroupsAgreeOnPanel3()
    ensures Config.NumRegions(3) == NumRegions(3) == 5
    ensures forall i :: 0 <= i < 5 ==> GroupsAgree(3, i)
  {
    forall i | 0 <= i < 5
      ensures GroupsAgree(3, i)
    {
      assert i == 0 || i == 1 || i == 2 || i == 3 || i == 4;
    }
  }

  lemma GroupsAgreeOnPanel4()
    ensures Config.NumRegions(4) == NumRegions(4) == 4
    ensures forall i :: 0 <= i < 4 ==> GroupsAgree(4, i)
  {
    forall i | 0 <= i < 4
      ensures GroupsAgree(4, i)
    {
      assert i == 0 || i == 1 || i == 2 || i == 3;
    }
  }
}
