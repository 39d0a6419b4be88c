/** The coordinator's command path (src/master/main.cpp): a decoded show
    message becomes a command with defaults filled in, and the command is
    sent to all peers or to one panel's fixed address. The JSON parser is
    not modelled; its output is a record of optional fields. */
module Master {
  import opened Outcomes
  import opened Common
  import Panel

  /** The keys the callback reads from a parsed message. `panelId`,
      `speed`, `audioReactive` and `intensity` are read with a default,
      so each is `None` when the key is absent or does not hold the type
      the callback asks for. `patternId`, `brightness` and `regions` are
      read only after a presence test, so each is `None` only when the
      key is absent. A present `patternId` or `brightness` holds whatever
      the JSON library's integer conversion makes of its value, and a
      present `regions` that is not an array is `Some([])`, which clears
      every region. */
  datatype JsonDoc = JsonDoc(
    panelId: Option<int>,
    patternId: Option<int>,
    brightness: Option<int>,
    regions: Option<seq<int>>,
    speed: Option<int>,
    audioReactive: Option<bool>,
    intensity: Option<int>)

  datatype ParseError = ParseError(reason: string)

  /** The coordinator's local command. `patternId` and `brightness` are
      only assigned when their keys are present; `None` stands for a field
      the callback never wrote. */
  datatype MasterCommand = MasterCommand(
    panelId: int,
    patternId: Option<int>,
    brightness: Option<int>,
    regions: seq<bool>,
    speed: int,
    audioReactive: bool,
    audioIntensity: int)

  /** Where `esp_now_send` is aimed: a null address (every registered
      peer) or one station address. */
  datatype Destination = AllPeers | Peer(mac: Mac)

  datatype Transmission = Transmission(destination: Destination, command: MasterCommand)

  /** `sendESPNowCommand`'s choice of address: 0 for all, 1..4 for that
      panel, anything else logged and dropped. */
  function Route(panelId: int): (d: Option<Destination>)
    ensures d == Some(AllPeers) <==> panelId == 0
    ensures d.None? <==> !(0 <= panelId <= 4)
    ensures d.Some? && d.value.Peer? ==>
              1 <= panelId <= 4 && d.value.mac[..5] == [0xAA, 0xAA, 0xAA, 0xAA, 0xAA] && d.value.mac[5] == panelId
  {
    if panelId == 0 then Some(AllPeers)
    else if 1 <= panelId <= 4 then Some(Peer(PanelMac(panelId)))
    else None
  }

  /** One pass of the `for (int region : regions)` loop. */
  function MarkRegion(mask: seq<bool>, region: int): (r: seq<bool>)
    ensures |r| == |mask|
    ensures forall i :: 0 <= i < |mask| ==> (r[i] <==> mask[i] || region == i + 1)
  {
    if 0 < region <= |mask| then mask[region - 1 := true] else mask
  }

  /** The mask built from an explicit region list: region numbers are
      1-based, and a number outside `1..n` is skipped. */
  function RegionMask(list: seq<int>, n: nat): (mask: seq<bool>)
    ensures |mask| == n
    ensures forall i :: 0 <= i < n ==> (mask[i] <==> (i + 1) in list)
  {
    if |list| == 0 then seq(n, _ => false)
    else
      var prefix := list[..|list| - 1];
      assert forall v :: v in list <==> v in prefix || v == list[|list| - 1];
      MarkRegion(RegionMask(prefix, n), list[|list| - 1])
  }

  /** The command `mqttCallback` builds from a parsed message, for a
      coordinator build with `n` regions per command. */
  function BuildCommand(doc: JsonDoc, n: nat): (c: MasterCommand)
    ensures c.panelId == doc.panelId.OrElse(0)
    ensures c.speed == doc.speed.OrElse(50)
    ensures c.audioReactive == doc.audioReactive.OrElse(false)
    ensures c.audioIntensity == doc.intensity.OrElse(0)
    ensures c.patternId == doc.patternId && c.brightness == doc.brightness
    ensures |c.regions| == n
    ensures doc.regions.None? ==> forall i :: 0 <= i < n ==> c.regions[i]
    ensures doc.regions.Some? ==> forall i :: 0 <= i < n ==> (c.regions[i] <==> (i + 1) in doc.regions.value)
  {
    var regions := match doc.regions
      case None => seq(n, _ => true)
      case Some(list) => RegionMask(list, n);
    MasterCommand(
      doc.panelId.OrElse(0), doc.patternId, doc.brightness, regions,
      doc.speed.OrElse(50), doc.audioReactive.OrElse(false), doc.intensity.OrElse(0))
  }

  /** `mqttCallback`: a message that fails to parse sends nothing; otherwise
      the built command goes wherever `Route` says, or nowhere. */
  function OnMessage(parsed: Result<JsonDoc, ParseError>, n: nat): (t: Option<Transmission>)
    ensures parsed.Err? ==> t.None?
    ensures parsed.Ok? ==>
              (t.Some? <==> Route(parsed.value.panelId.OrElse(0)).Some?)
    ensures t.Some? ==>
              && t.value.command == BuildCommand(parsed.value, n)
              && Some(t.value.destination) == Route(t.value.command.panelId)
  {
    match parsed
    case Err(_) => None
    case Ok(doc) =>
      var cmd := BuildCommand(doc, n);
      match Route(cmd.panelId)
      case None => None
      case Some(d) => Some(Transmission(d, cmd))
  }

  // ---------------------------------------------------------------------
  // Properties of the command path
  // ---------------------------------------------------------------------

  /** Only the set of listed numbers matters: order and repetitions do not. */
  lemma RegionMaskIgnoresOrder(a: seq<int>, b: seq<int>, n: nat)
    requires forall v :: v in a <==> v in b
    ensures RegionMask(a, n) == RegionMask(b, n)
  {
    var ma := RegionMask(a, n);
    var mb := RegionMask(b, n);
    assert forall i :: 0 <= i < n ==> ma[i] == mb[i];
  }

  /** A message without a region list is the same as one listing `1..n`. */
  lemma AbsentListMeansAll(doc: JsonDoc, n: nat)
    requires doc.regions.None?
    ensures BuildCommand(doc, n).regions == RegionMask(seq(n, i => i + 1), n)
  {
    var all := seq(n, i => i + 1);
    var mask := RegionMask(all, n);
    var built := BuildCommand(doc, n).regions;
    forall i | 0 <= i < n
      ensures mask[i] == built[i]
    {
      assert all[i] == i + 1;
    }
  }

  /** A command for panel `p` goes to exactly the address panel `p` gives
      itself at boot. */
  lemma RouteReachesThePanel(p: PanelId)
    ensures Route(p) == Some(Peer(Panel.SelfMac(p)))
  {
    var a := PanelMac(p);
    var b := Panel.SelfMac(p);
    assert a == a[..5] + [a[5]];
    assert b == b[..5] + [b[5]];
  }
}
