/** The panel firmware's own state and its three entry points
    (src/panel/main.cpp): `setup`, the radio receive callback `onDataRecv`,
    and one pass of `loop`. The clock is a parameter: every `millis()` read
    within one entry point is taken to return the same `now`. */
module Panel {
  import opened Machine
  import opened Common
  import opened Effects
  import PanelConfig

  /** `COMMAND_TIMEOUT`: five minutes in milliseconds. */
  const COMMAND_TIMEOUT: U32 := 300000

  /** The panel's globals: the command being rendered, the last effect code
      seen, the two timestamps, the effects' statics and the duty cycle
      written to each of the panel's regions. */
  datatype PanelState = PanelState(
    current: LightCommand,
    lastEffect: Byte,
    lastCommandReceived: U32,
    lastEffectUpdate: U32,
    counters: Counters,
    outputs: seq<Byte>)

  /** What the receive callback did with a frame; one per log branch. */
  datatype Outcome =
    | Accepted
    | IgnoredForPanel(target: Byte)
    | Rejected(error: DecodeError)

  datatype Received = Received(state: PanelState, outcome: Outcome)

  /** The states every run from `setup` keeps: one duty cycle per region of
      this panel, the last effect code equal to the current one, and the
      effects' invariant. */
  predicate Reachable(p: PanelId, s: PanelState) {
    && |s.outputs| == PanelConfig.NumRegions(p)
    && s.lastEffect == s.current.effect
    && CountersInv(s.counters, PanelConfig.NumRegions(p))
  }

  /** The command `setup` leaves in `currentState`: static, brightness 128,
      speed 50, exactly this panel's regions enabled; the fields `setup` does
      not assign keep the zero a C++ global starts with. */
  function BootCommand(p: PanelId): (c: LightCommand)
    ensures c.effect == EFFECT_STATIC && c.brightness == DEFAULT_BRIGHTNESS && c.speed == DEFAULT_SPEED
    ensures forall i :: 0 <= i < MAX_REGIONS ==> (c.regions[i] <==> i < PanelConfig.NumRegions(p))
  {
    LightCommand(0, EFFECT_STATIC, 128, 50, false, 0,
      seq(MAX_REGIONS, i requires 0 <= i < MAX_REGIONS => i < PanelConfig.NumRegions(p)))
  }

  /** `setup`, past the radio bring-up: every region dark and the boot
      command in place. */
  function Boot(p: PanelId): (s: PanelState)
    ensures Reachable(p, s)
    ensures s.current == BootCommand(p) && s.lastEffect == EFFECT_STATIC
    ensures s.lastCommandReceived == 0 && s.counters == INITIAL_COUNTERS
    ensures |s.outputs| == PanelConfig.NumRegions(p)
    ensures forall i :: 0 <= i < |s.outputs| ==> s.outputs[i] == 0
  {
    PanelState(BootCommand(p), EFFECT_STATIC, 0, 0, INITIAL_COUNTERS,
      seq(PanelConfig.NumRegions(p), _ => 0))
  }

  /** The station address `setup` gives the panel: `AA:AA:AA:AA:AA:00`
      with the last byte replaced by `PANEL_ID`. */
  function SelfMac(p: PanelId): (mac: Mac)
    ensures mac[..5] == [0xAA, 0xAA, 0xAA, 0xAA, 0xAA] && mac[5] == p
  {
    var custom: Mac := [0xAA, 0xAA, 0xAA, 0xAA, 0xAA, 0x00];
    custom[5 := p]
  }

  /** The address filter: a command for panel 0 is for everyone. */
  predicate AddressedTo(p: PanelId, cmd: LightCommand) {
    cmd.panelId == 0 || cmd.panelId == p
  }

  /** `onDataRecv`: a frame of the wrong length or for another panel is
      dropped; an accepted command replaces the current one, and a new
      effect code darkens every region first. The effects' statics are
      never reset. */
  function Receive(p: PanelId, s: PanelState, frame: seq<Byte>, now: U32): (r: Received)
    requires Reachable(p, s)
    ensures Reachable(p, r.state)
    ensures r.outcome.Accepted? <==> |frame| == FRAME_SIZE && (frame[5] == 0 || frame[5] == p)
    ensures r.outcome == Rejected(SizeMismatch(FRAME_SIZE, |frame|)) <==> |frame| != FRAME_SIZE
    ensures r.outcome.IgnoredForPanel? ==> r.outcome.target == frame[5] && r.outcome.target != 0 && r.outcome.target != p
    ensures !r.outcome.Accepted? ==> r.state == s
    ensures r.outcome.Accepted? ==>
              && r.state.current == Decode(frame).value
              && r.state.lastCommandReceived == now
              && r.state.counters == s.counters
              && r.state.lastEffectUpdate == s.lastEffectUpdate
    ensures r.outcome.Accepted? && frame[1] != s.current.effect ==>
              forall i :: 0 <= i < |r.state.outputs| ==> r.state.outputs[i] == 0
    ensures r.outcome.Accepted? && frame[1] == s.current.effect ==> r.state.outputs == s.outputs
  {
    match Decode(frame)
    case Err(e) => Received(s, Rejected(e))
    case Ok(cmd) =>
      if AddressedTo(p, cmd) then
        var cleared :=
          if cmd.effect != s.lastEffect then
            s.(outputs := ResetEffectStates(s.outputs), lastEffect := cmd.effect)
          else
            s;
        Received(cleared.(current := cmd, lastCommandReceived := now), Accepted)
      else
        Received(s, IgnoredForPanel(cmd.panelId))
  }

  /** `checkCommandTimeout`: once a command has arrived, a silence longer
      than the timeout restarts the timer (and logs a warning). */
  function CheckCommandTimeout(s: PanelState, now: U32): (r: PanelState)
    ensures r == s.(lastCommandReceived := r.lastCommandReceived)
    ensures s.lastCommandReceived == 0 ==> r == s
    ensures r.lastCommandReceived != 0 ==> SubU32(now, r.lastCommandReceived) <= COMMAND_TIMEOUT
    ensures r.lastCommandReceived != s.lastCommandReceived ==> r.lastCommandReceived == now
    ensures SubU32(now, s.lastCommandReceived) <= COMMAND_TIMEOUT ==> r == s
  {
    if s.lastCommandReceived > 0 && SubU32(now, s.lastCommandReceived) > COMMAND_TIMEOUT then
      s.(lastCommandReceived := now)
    else
      s
  }

  /** One pass of `loop`: render the current effect, then the timeout check.
      The heartbeat only logs. */
  function Loop(p: PanelId, s: PanelState, now: U32): (r: PanelState)
    requires Reachable(p, s)
    ensures Reachable(p, r)
    ensures r.current == s.current && r.lastEffect == s.lastEffect
    ensures r.lastEffectUpdate == now
    ensures var f := ExecuteEffect(s.current, s.counters, s.outputs, now, PanelConfig.NumRegions(p));
            r.counters == f.counters && r.outputs == f.outputs
    ensures OnlyOwnCounters(s.current.effect, s.counters, r.counters)
    ensures r.lastCommandReceived == CheckCommandTimeout(s, now).lastCommandReceived
    ensures r.lastCommandReceived != 0 ==> SubU32(now, r.lastCommandReceived) <= COMMAND_TIMEOUT
    ensures !Animated(s.current.effect) ==>
              forall i :: 0 <= i < |r.outputs| ==>
                r.outputs[i] == (if s.current.regions[i] then s.current.brightness else 0)
  {
    var f := ExecuteEffect(s.current, s.counters, s.outputs, now, PanelConfig.NumRegions(p));
    CheckCommandTimeout(s.(counters := f.counters, outputs := f.outputs, lastEffectUpdate := now), now)
  }

  /** Something that happens to a panel: a pass of the main loop, or a frame
      arriving over the radio. */
  datatype Event = Tick(now: U32) | Packet(frame: seq<Byte>, at: U32)

  function Apply(p: PanelId, s: PanelState, e: Event): (r: PanelState)
    requires Reachable(p, s)
    ensures Reachable(p, r)
  {
    match e
    case Tick(now) => Loop(p, s, now)
    case Packet(frame, at) => Receive(p, s, frame, at).state
  }

  /** The state after `setup` and then `events`, in order. */
  function Run(p: PanelId, events: seq<Event>): (s: PanelState)
    ensures Reachable(p, s)
    ensures s.counters.pulse.increasing && s.counters.pulse.level != 255
    ensures s.counters.wave.activeRegion < PanelConfig.NumRegions(p)
  {
    if |events| == 0 then Boot(p)
    else Apply(p, Run(p, events[..|events| - 1]), events[|events| - 1])
  }

  // ---------------------------------------------------------------------
  // Properties of a panel over time
  // ---------------------------------------------------------------------

  /** A run extended by one event is that event applied to the run. */
  lemma RunSnoc(p: PanelId, events: seq<Event>, e: Event)
    ensures Run(p, events + [e]) == Apply(p, Run(p, events), e)
  {
    assert (events + [e])[..|events|] == events;
  }

  /** The first pass of `loop` after `setup` lights every region of the
      panel at the default brightness. */
  lemma BootLightsEveryRegion(p: PanelId, now: U32)
    ensures Loop(p, Boot(p), now).outputs == seq(PanelConfig.NumRegions(p), _ => DEFAULT_BRIGHTNESS)
  {
    var r := Loop(p, Boot(p), now);
    assert forall i :: 0 <= i < |r.outputs| ==> r.outputs[i] == DEFAULT_BRIGHTNESS;
  }

  /** End to end: a static command sent to this panel (or to all) is on the
      outputs after the next pass of `loop`, whenever that pass runs. */
  lemma StaticCommandTakesEffect(p: PanelId, s: PanelState, c: LightCommand, t1: U32, t2: U32)
    requires Reachable(p, s)
    requires c.effect == EFFECT_STATIC && AddressedTo(p, c)
    ensures Receive(p, s, Encode(c), t1).outcome == Accepted
    ensures var r := Loop(p, Receive(p, s, Encode(c), t1).state, t2);
            forall i :: 0 <= i < PanelConfig.NumRegions(p) ==>
              r.outputs[i] == (if c.regions[i] then c.brightness else 0)
  {
    DecodeEncode(c);
  }

  /** A command for another panel changes nothing at all. */
  lemma ForeignCommandIgnored(p: PanelId, s: PanelState, c: LightCommand, t: U32)
    requires Reachable(p, s)
    requires !AddressedTo(p, c)
    ensures Receive(p, s, Encode(c), t) == Received(s, IgnoredForPanel(c.panelId))
  {
    DecodeEncode(c);
  }

  /** Receiving the same frame twice at the same time is the same as
      receiving it once. */
  lemma ReceiveIdempotent(p: PanelId, s: PanelState, frame: seq<Byte>, t: U32)
    requires Reachable(p, s)
    ensures Receive(p, Receive(p, s, frame, t).state, frame, t).state == Receive(p, s, frame, t).state
  {
  }

  /** The effects' statics survive an effect change: after switching from
      one effect to another and back, every counter is where it was, so
      the first effect resumes mid-animation instead of restarting. */
  lemma SwitchAwayAndBackKeepsCounters(p: PanelId, events: seq<Event>, away: LightCommand, back: LightCommand, t1: U32, t2: U32)
    requires AddressedTo(p, away) && AddressedTo(p, back)
    requires away.effect != Run(p, events).current.effect
    ensures Run(p, events + [Packet(Encode(away), t1), Packet(Encode(back), t2)]).counters
            == Run(p, events).counters
  {
    var s := Run(p, events);
    var mid := events + [Packet(Encode(away), t1)];
    RunSnoc(p, events, Packet(Encode(away), t1));
    assert events + [Packet(Encode(away), t1), Packet(Encode(back), t2)] == mid + [Packet(Encode(back), t2)];
    RunSnoc(p, mid, Packet(Encode(back), t2));
    DecodeEncode(away);
    DecodeEncode(back);
  }
}
