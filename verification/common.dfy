/** The radio protocol shared by the coordinator and the panels: the packed
    `LightCommand` frame, the effect codes, the defaults and the fixed
    panel addresses (include/common.h). */
module Common {
  import opened Machine
  import opened Outcomes

  /** Size of the region mask carried by every frame. */
  const MAX_REGIONS: nat := 20

  const DEFAULT_BRIGHTNESS: Byte := 128
  const DEFAULT_SPEED: Byte := 50

  /** `EffectType` codes. */
  const EFFECT_STATIC: Byte := 0
  const EFFECT_BREATHING: Byte := 1
  const EFFECT_WAVE: Byte := 2
  const EFFECT_PULSE: Byte := 3
  const EFFECT_FADE_IN: Byte := 4
  const EFFECT_FADE_OUT: Byte := 5

  /** The `PANEL_ID` a panel firmware is built with. */
  type PanelId = p: int | 1 <= p <= 4 witness 1

  /** `bool regions[MAX_REGIONS]`. */
  type RegionMask = s: seq<bool> | |s| == MAX_REGIONS witness seq(MAX_REGIONS, _ => false)

  /** The packed radio frame. Fields appear in declaration order on the wire. */
  datatype LightCommand = LightCommand(
    sequence: Byte,
    effect: Byte,
    brightness: Byte,
    speed: Byte,
    debugMode: bool,
    panelId: Byte,
    regions: RegionMask)

  /** `sizeof(LightCommand)`: six one-byte fields plus one byte per region. */
  const FRAME_SIZE: nat := 6 + MAX_REGIONS

  /** Wire offset of the first region byte. */
  const REGIONS_OFFSET: nat := 6

  datatype DecodeError = SizeMismatch(expected: nat, got: nat)

  /** A C++ `bool` stored as one byte. */
  function BoolByte(b: bool): Byte {
    if b then 1 else 0
  }

  /** Reading a byte as a C++ `bool`. A byte other than 0 or 1 has no defined
      meaning in C++; the model reads any non-zero byte as `true`. */
  function ByteBool(x: Byte): bool {
    x != 0
  }

  /** A byte that a C++ `bool` can hold. */
  predicate IsBoolByte(x: Byte) {
    x == 0 || x == 1
  }

  /** The bytes `memcpy` sees when a `LightCommand` is sent. */
  function Encode(c: LightCommand): (frame: seq<Byte>)
    ensures |frame| == FRAME_SIZE
    ensures frame[0] == c.sequence && frame[1] == c.effect && frame[2] == c.brightness
    ensures frame[3] == c.speed && frame[5] == c.panelId
    ensures ByteBool(frame[4]) == c.debugMode && IsBoolByte(frame[4])
    ensures forall i :: 0 <= i < MAX_REGIONS ==>
              ByteBool(frame[REGIONS_OFFSET + i]) == c.regions[i] && IsBoolByte(frame[REGIONS_OFFSET + i])
  {
    [c.sequence, c.effect, c.brightness, c.speed, BoolByte(c.debugMode), c.panelId]
      + seq(MAX_REGIONS, i requires 0 <= i < MAX_REGIONS => BoolByte(c.regions[i]))
  }

  /** The receiver's `memcpy` into a `LightCommand`, guarded by the exact
      length check. */
  function Decode(frame: seq<Byte>): (r: Result<LightCommand, DecodeError>)
    ensures r.Err? <==> |frame| != FRAME_SIZE
    ensures r.Err? ==> r.error == SizeMismatch(FRAME_SIZE, |frame|)
    ensures r.Ok? ==> r.value.panelId == frame[5] && r.value.effect == frame[1]
  {
    if |frame| != FRAME_SIZE then
      Err(SizeMismatch(FRAME_SIZE, |frame|))
    else
      Ok(LightCommand(
        frame[0], frame[1], frame[2], frame[3], ByteBool(frame[4]), frame[5],
        seq(MAX_REGIONS, i requires 0 <= i < MAX_REGIONS => ByteBool(frame[REGIONS_OFFSET + i]))))
  }

  /** Every command survives the trip over the radio unchanged. */
  lemma DecodeEncode(c: LightCommand)
    ensures Decode(Encode(c)) == Ok(c)
  {
    var frame := Encode(c);
    var d := Decode(frame).value;
    assert d.regions == c.regions;
  }

  /** A frame of the right length whose `bool` bytes hold 0 or 1 is exactly
      the encoding of the command it decodes to. */
  lemma EncodeDecode(frame: seq<Byte>)
    requires |frame| == FRAME_SIZE
    requires IsBoolByte(frame[4])
    requires forall i :: REGIONS_OFFSET <= i < FRAME_SIZE ==> IsBoolByte(frame[i])
    ensures Decode(frame).Ok? && Encode(Decode(frame).value) == frame
  {
    var c := Decode(frame).value;
    var e := Encode(c);
    forall i | 0 <= i < FRAME_SIZE
      ensures e[i] == frame[i]
    {
      if i >= REGIONS_OFFSET {
        var k := i - REGIONS_OFFSET;
        assert c.regions[k] == ByteBool(frame[i]);
        assert e[i] == BoolByte(c.regions[k]);
      }
    }
  }

  /** The effect codes are pairwise distinct. */
  lemma EffectCodesDistinct()
    ensures |{EFFECT_STATIC, EFFECT_BREATHING, EFFECT_WAVE, EFFECT_PULSE, EFFECT_FADE_IN, EFFECT_FADE_OUT}| == 6
  {
  }

  /** A six-byte station address. */
  type Mac = s: seq<Byte> | |s| == 6 witness [0, 0, 0, 0, 0, 0]

  const PANEL1_MAC: Mac := [0xAA, 0xAA, 0xAA, 0xAA, 0xAA, 0x01]
  const PANEL2_MAC: Mac := [0xAA, 0xAA, 0xAA, 0xAA, 0xAA, 0x02]
  const PANEL3_MAC: Mac := [0xAA, 0xAA, 0xAA, 0xAA, 0xAA, 0x03]
  const PANEL4_MAC: Mac := [0xAA, 0xAA, 0xAA, 0xAA, 0xAA, 0x04]
  const BROADCAST_MAC: Mac := [0xFF, 0xFF, 0xFF, 0xFF, 0xFF, 0xFF]

  /** `panel1_mac` .. `panel4_mac`, indexed by panel id. */
  function PanelMac(p: PanelId): (mac: Mac)
    ensures mac[..5] == [0xAA, 0xAA, 0xAA, 0xAA, 0xAA] && mac[5] == p
  {
    match p
    case 1 => PANEL1_MAC
    case 2 => PANEL2_MAC
    case 3 => PANEL3_MAC
    case 4 => PANEL4_MAC
  }

  /** The four panel addresses are pairwise distinct and none of them is the
      broadcast address. */
  lemma PanelMacsDistinct(p: PanelId, q: PanelId)
    ensures PanelMac(p) == PanelMac(q) <==> p == q
    ensures PanelMac(p) != BROADCAST_MAC
  {
    assert PanelMac(p)[5] == p;
    assert PanelMac(q)[5] == q;
    assert BROADCAST_MAC[5] == 0xFF;
  }
}
