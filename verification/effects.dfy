/** The panel's six effects (src/panel/main.cpp). Each animated effect keeps
    its own hidden counters -- function-local statics in the firmware, a
    record here -- and advances only when its own cadence gate opens. An
    effect writes the duty cycle of every region of the panel; `n` is the
    panel's `NUM_REGIONS`. */
module Effects {
  import opened Machine
  import opened Common

  /** Statics of `effect_breathing`. */
  datatype Breathing = Breathing(lastUpdate: U32, level: Byte, direction: I8)

  /** Statics of `effect_wave`. */
  datatype Wave = Wave(lastUpdate: U32, activeRegion: Byte)

  /** Statics of `effect_pulse`. */
  datatype Pulse = Pulse(lastUpdate: U32, level: Byte, increasing: bool)

  /** Statics of `effect_fade_in` and of `effect_fade_out`. */
  datatype Fade = Fade(lastUpdate: U32, level: Byte)

  /** Every effect's statics together. */
  datatype Counters = Counters(breathing: Breathing, wave: Wave, pulse: Pulse, fadeIn: Fade, fadeOut: Fade)

  /** The statics' initial values at power-up. */
  const INITIAL_COUNTERS: Counters :=
    Counters(Breathing(0, 0, 1), Wave(0, 0), Pulse(0, 0, true), Fade(0, 0), Fade(0, 255))

  /** What one effect call leaves behind: its statics and the duty cycles. */
  datatype Step<S> = Step(state: S, outputs: seq<Byte>)

  // ---------------------------------------------------------------------
  // Writing duty cycles
  // ---------------------------------------------------------------------

  /** `setRegionBrightness`: writes one region's duty cycle, and ignores a
      region number past the panel's regions. */
  function SetRegionBrightness(outputs: seq<Byte>, region: int, value: Byte): (r: seq<Byte>)
    ensures |r| == |outputs|
    ensures 0 <= region < |outputs| ==> r[region] == value
    ensures forall i :: 0 <= i < |outputs| && i != region ==> r[i] == outputs[i]
    ensures !(0 <= region < |outputs|) ==> r == outputs
  {
    if 0 <= region < |outputs| then outputs[region := value] else outputs
  }

  /** `resetEffectStates`: writes 0 to every region. */
  function ResetEffectStates(outputs: seq<Byte>): (r: seq<Byte>)
    ensures |r| == |outputs|
    ensures forall i :: 0 <= i < |r| ==> r[i] == 0
  {
    seq(|outputs|, _ => 0)
  }

  /** The loop every effect but the wave ends with: `level` on the enabled
      regions, 0 on the others. */
  function MaskedLevels(regions: RegionMask, n: nat, level: Byte): (r: seq<Byte>)
    requires n <= MAX_REGIONS
    ensures |r| == n
  {
    seq(n, i requires 0 <= i < n => if regions[i] then level else 0)
  }

  // ---------------------------------------------------------------------
  // EFFECT_STATIC
  // ---------------------------------------------------------------------

  /** `effect_static`: no statics, no clock. */
  function StaticOutputs(cmd: LightCommand, n: nat): (r: seq<Byte>)
    requires n <= MAX_REGIONS
    ensures |r| == n
    ensures forall i :: 0 <= i < n && cmd.regions[i] ==> r[i] == cmd.brightness
    ensures forall i :: 0 <= i < n && !cmd.regions[i] ==> r[i] == 0
  {
    MaskedLevels(cmd.regions, n, cmd.brightness)
  }

  // ---------------------------------------------------------------------
  // EFFECT_BREATHING
  // ---------------------------------------------------------------------

  function BreathingInterval(speed: Byte): U16 {
    Interval(speed, 50, 5)
  }

  /** The breathing ramp's reachable shapes: a multiple of 5, heading up
      from below 255 or down from above 0. */
  predicate BreathingInv(b: Breathing) {
    && b.level % 5 == 0
    && (b.direction == 1 || b.direction == -1)
    && (b.direction == 1 ==> b.level < 255)
    && (b.direction == -1 ==> b.level > 0)
  }

  /** One step of the ramp: `level += direction * 5` in `uint8_t`, then the
      reflection at 255 and at 0. */
  function BreathingAdvance(b: Breathing): (r: Breathing)
    ensures r.lastUpdate == b.lastUpdate
    ensures r.level == 255 ==> r.direction == -1
    ensures r.level == 0 ==> r.direction == 1
    ensures BreathingInv(b) ==> BreathingInv(r) && r.level == b.level + 5 * b.direction
    ensures BreathingInv(b) && 0 < r.level < 255 ==> r.direction == b.direction
  {
    var raw := ToByte(b.level + b.direction * 5);
    if raw >= 255 then b.(level := 255, direction := -1)
    else if raw <= 0 then b.(level := 0, direction := 1)
    else b.(level := raw)
  }

  /** `effect_breathing`. */
  function BreathingTick(cmd: LightCommand, b: Breathing, outputs: seq<Byte>, now: U32, n: nat): (r: Step<Breathing>)
    requires |outputs| == n <= MAX_REGIONS
    ensures |r.outputs| == n
    ensures BreathingInv(b) ==> BreathingInv(r.state)
    ensures !Due(now, b.lastUpdate, BreathingInterval(cmd.speed)) ==> r == Step(b, outputs)
    ensures Due(now, b.lastUpdate, BreathingInterval(cmd.speed)) ==>
              && r.state.lastUpdate == now
              && r.state.level == BreathingAdvance(b).level
              && r.state.direction == BreathingAdvance(b).direction
              && forall i :: 0 <= i < n ==>
                   r.outputs[i] == (if cmd.regions[i] then Scale(r.state.level, cmd.brightness) else 0)
                   && r.outputs[i] <= cmd.brightness
  {
    if Due(now, b.lastUpdate, BreathingInterval(cmd.speed)) then
      var next := BreathingAdvance(b).(lastUpdate := now);
      Step(next, MaskedLevels(cmd.regions, n, Scale(next.level, cmd.brightness)))
    else
      Step(b, outputs)
  }

  // ---------------------------------------------------------------------
  // EFFECT_WAVE
  // ---------------------------------------------------------------------

  function WaveInterval(speed: Byte): U16 {
    Interval(speed, 1000, 100)
  }

  /** The `do { a = (a + 1) % n } while (!regions[a] && a != 0)` loop: the
      first enabled region after `a`, or 0 once the search wraps around. */
  function NextEnabled(regions: RegionMask, a: nat, n: nat): (r: nat)
    requires a < n <= MAX_REGIONS
    ensures r < n
    ensures r != 0 ==> a < r && regions[r]
    ensures forall j :: a < j < n && (r == 0 || j < r) ==> !regions[j]
    decreases n - a
  {
    var b := (a + 1) % n;
    IncrementModulo(a, n);
    if b == 0 || regions[b] then b else NextEnabled(regions, b, n)
  }

  /** `(a + 1) % n` for `a < n` is the successor, or 0 past the end. */
  lemma IncrementModulo(a: nat, n: nat)
    requires a < n
    ensures (a + 1) % n == if a + 1 < n then a + 1 else 0
  {
  }

  /** `effect_wave`. */
  function WaveTick(cmd: LightCommand, w: Wave, outputs: seq<Byte>, now: U32, n: nat): (r: Step<Wave>)
    requires |outputs| == n <= MAX_REGIONS && w.activeRegion < n
    ensures |r.outputs| == n && r.state.activeRegion < n
    ensures !Due(now, w.lastUpdate, WaveInterval(cmd.speed)) ==> r == Step(w, outputs)
    ensures Due(now, w.lastUpdate, WaveInterval(cmd.speed)) ==>
              && r.state.lastUpdate == now
              && r.state.activeRegion == NextEnabled(cmd.regions, w.activeRegion, n)
              && forall i :: 0 <= i < n ==>
                   r.outputs[i] == (if i == w.activeRegion && cmd.regions[i] then cmd.brightness else 0)
  {
    if Due(now, w.lastUpdate, WaveInterval(cmd.speed)) then
      var cleared := ResetEffectStates(outputs);
      var lit := if cmd.regions[w.activeRegion] then SetRegionBrightness(cleared, w.activeRegion, cmd.brightness) else cleared;
      Step(Wave(now, NextEnabled(cmd.regions, w.activeRegion, n)), lit)
    else
      Step(w, outputs)
  }

  // ---------------------------------------------------------------------
  // EFFECT_PULSE
  // ---------------------------------------------------------------------

  function PulseInterval(speed: Byte): U16 {
    Interval(speed, 30, 5)
  }

  /** The pulse's reachable shapes from power-up: an even level, rising. */
  predicate PulseInv(p: Pulse) {
    p.increasing && p.level % 2 == 0
  }

  /** One step of the pulse ramp: `level += 10` in `uint8_t` while rising,
      turning around only when the level lands exactly on 255. */
  function PulseAdvance(p: Pulse): (r: Pulse)
    ensures r.lastUpdate == p.lastUpdate
    ensures !p.increasing && p.level >= 10 ==> r == p.(level := p.level - 10)
    ensures !p.increasing && p.level < 10 ==> r == p.(level := 0, increasing := true)
    ensures PulseInv(p) ==> PulseInv(r) && r.level == (p.level + 10) % 256 && r.level != 255
  {
    if p.increasing then
      var raw := ToByte(p.level + 10);
      if raw >= 255 then p.(level := 255, increasing := false) else p.(level := raw)
    else if p.level >= 10 then
      p.(level := p.level - 10)
    else
      p.(level := 0, increasing := true)
  }

  /** `effect_pulse`. */
  function PulseTick(cmd: LightCommand, p: Pulse, outputs: seq<Byte>, now: U32, n: nat): (r: Step<Pulse>)
    requires |outputs| == n <= MAX_REGIONS
    ensures |r.outputs| == n
    ensures PulseInv(p) ==> PulseInv(r.state)
    ensures !Due(now, p.lastUpdate, PulseInterval(cmd.speed)) ==> r == Step(p, outputs)
    ensures Due(now, p.lastUpdate, PulseInterval(cmd.speed)) ==>
              && r.state.lastUpdate == now
              && r.state.level == PulseAdvance(p).level
              && r.state.increasing == PulseAdvance(p).increasing
              && forall i :: 0 <= i < n ==>
                   r.outputs[i] == (if cmd.regions[i] then Scale(r.state.level, cmd.brightness) else 0)
                   && r.outputs[i] <= cmd.brightness
  {
    if Due(now, p.lastUpdate, PulseInterval(cmd.speed)) then
      var next := PulseAdvance(p).(lastUpdate := now);
      Step(next, MaskedLevels(cmd.regions, n, Scale(next.level, cmd.brightness)))
    else
      Step(p, outputs)
  }

  // ---------------------------------------------------------------------
  // EFFECT_FADE_IN / EFFECT_FADE_OUT
  // ---------------------------------------------------------------------

  function FadeInterval(speed: Byte): U16 {
    Interval(speed, 50, 5)
  }

  /** One step of the fade-in: below the target, `level += 5` in `uint8_t`,
      clamped down to the target when it overshoots. Past 250 the addition
      wraps, and the wrapped value is below any target. */
  function FadeInLevel(level: Byte, target: Byte): (r: Byte)
    ensures level >= target ==> r == level
    ensures level < target && level + 5 < 256 ==> r == if level + 5 > target then target else level + 5
    ensures level < target && level + 5 >= 256 ==> r == level + 5 - 256
  {
    if level < target then
      var raw := ToByte(level + 5);
      if raw > target then target else raw
    else
      level
  }

  /** One step of the fade-out: down by 5, floored at 0. */
  function FadeOutLevel(level: Byte): (r: Byte)
    ensures r <= level
    ensures r == if level >= 5 then level - 5 else 0
    ensures level % 5 == 0 ==> r % 5 == 0
  {
    if level > 0 then
      if level >= 5 then level - 5 else 0
    else
      level
  }

  /** `effect_fade_in`. */
  function FadeInTick(cmd: LightCommand, f: Fade, outputs: seq<Byte>, now: U32, n: nat): (r: Step<Fade>)
    requires |outputs| == n <= MAX_REGIONS
    ensures |r.outputs| == n
    ensures !Due(now, f.lastUpdate, FadeInterval(cmd.speed)) ==> r == Step(f, outputs)
    ensures Due(now, f.lastUpdate, FadeInterval(cmd.speed)) ==>
              && r.state == Fade(now, FadeInLevel(f.level, cmd.brightness))
              && forall i :: 0 <= i < n ==> r.outputs[i] == (if cmd.regions[i] then r.state.level else 0)
  {
    if Due(now, f.lastUpdate, FadeInterval(cmd.speed)) then
      var next := Fade(now, FadeInLevel(f.level, cmd.brightness));
      Step(next, MaskedLevels(cmd.regions, n, next.level))
    else
      Step(f, outputs)
  }

  /** `effect_fade_out`. */
  function FadeOutTick(cmd: LightCommand, f: Fade, outputs: seq<Byte>, now: U32, n: nat): (r: Step<Fade>)
    requires |outputs| == n <= MAX_REGIONS
    ensures |r.outputs| == n
    ensures f.level % 5 == 0 ==> r.state.level % 5 == 0
    ensures !Due(now, f.lastUpdate, FadeInterval(cmd.speed)) ==> r == Step(f, outputs)
    ensures Due(now, f.lastUpdate, FadeInterval(cmd.speed)) ==>
              && r.state == Fade(now, FadeOutLevel(f.level))
              && forall i :: 0 <= i < n ==> r.outputs[i] == (if cmd.regions[i] then r.state.level else 0)
  {
    if Due(now, f.lastUpdate, FadeInterval(cmd.speed)) then
      var next := Fade(now, FadeOutLevel(f.level));
      Step(next, MaskedLevels(cmd.regions, n, next.level))
    else
      Step(f, outputs)
  }

  // ---------------------------------------------------------------------
  // executeEffect
  // ---------------------------------------------------------------------

  /** Counters and duty cycles after one `executeEffect`. */
  datatype Frame = Frame(counters: Counters, outputs: seq<Byte>)

  /** An effect code with an animation of its own (1..5). */
  predicate Animated(effect: Byte) {
    EFFECT_BREATHING <= effect <= EFFECT_FADE_OUT
  }

  /** Only the statics of the selected effect may differ between `c` and `c'`. */
  predicate OnlyOwnCounters(effect: Byte, c: Counters, c': Counters) {
    && (effect != EFFECT_BREATHING ==> c'.breathing == c.breathing)
    && (effect != EFFECT_WAVE ==> c'.wave == c.wave)
    && (effect != EFFECT_PULSE ==> c'.pulse == c.pulse)
    && (effect != EFFECT_FADE_IN ==> c'.fadeIn == c.fadeIn)
    && (effect != EFFECT_FADE_OUT ==> c'.fadeOut == c.fadeOut)
  }

  /** What the statics always satisfy from power-up on, for a panel of `n`
      regions. */
  predicate CountersInv(c: Counters, n: nat) {
    && c.wave.activeRegion < n
    && BreathingInv(c.breathing)
    && PulseInv(c.pulse)
    && c.fadeOut.level % 5 == 0
  }

  /** `executeEffect`: dispatch on the effect code; an unknown code renders
      as the static effect. */
  function ExecuteEffect(cmd: LightCommand, c: Counters, outputs: seq<Byte>, now: U32, n: nat): (r: Frame)
    requires |outputs| == n <= MAX_REGIONS && c.wave.activeRegion < n
    ensures |r.outputs| == n && r.counters.wave.activeRegion < n
    ensures OnlyOwnCounters(cmd.effect, c, r.counters)
    ensures CountersInv(c, n) ==> CountersInv(r.counters, n)
    ensures !Animated(cmd.effect) ==> r.counters == c
    ensures !Animated(cmd.effect) ==> forall i :: 0 <= i < n ==>
              r.outputs[i] == (if cmd.regions[i] then cmd.brightness else 0)
    ensures cmd.effect == EFFECT_BREATHING ==>
              var s := BreathingTick(cmd, c.breathing, outputs, now, n);
              r.counters.breathing == s.state && r.outputs == s.outputs
    ensures cmd.effect == EFFECT_WAVE ==>
              var s := WaveTick(cmd, c.wave, outputs, now, n);
              r.counters.wave == s.state && r.outputs == s.outputs
    ensures cmd.effect == EFFECT_PULSE ==>
              var s := PulseTick(cmd, c.pulse, outputs, now, n);
              r.counters.pulse == s.state && r.outputs == s.outputs
    ensures cmd.effect == EFFECT_FADE_IN ==>
              var s := FadeInTick(cmd, c.fadeIn, outputs, now, n);
              r.counters.fadeIn == s.state && r.outputs == s.outputs
    ensures cmd.effect == EFFECT_FADE_OUT ==>
              var s := FadeOutTick(cmd, c.fadeOut, outputs, now, n);
              r.counters.fadeOut == s.state && r.outputs == s.outputs
  {
    if cmd.effect == EFFECT_STATIC then
      Frame(c, StaticOutputs(cmd, n))
    else if cmd.effect == EFFECT_BREATHING then
      var s := BreathingTick(cmd, c.breathing, outputs, now, n);
      Frame(c.(breathing := s.state), s.outputs)
    else if cmd.effect == EFFECT_WAVE then
      var s := WaveTick(cmd, c.wave, outputs, now, n);
      Frame(c.(wave := s.state), s.outputs)
    else if cmd.effect == EFFECT_PULSE then
      var s := PulseTick(cmd, c.pulse, outputs, now, n);
      Frame(c.(pulse := s.state), s.outputs)
    else if cmd.effect == EFFECT_FADE_IN then
      var s := FadeInTick(cmd, c.fadeIn, outputs, now, n);
      Frame(c.(fadeIn := s.state), s.outputs)
    else if cmd.effect == EFFECT_FADE_OUT then
      var s := FadeOutTick(cmd, c.fadeOut, outputs, now, n);
      Frame(c.(fadeOut := s.state), s.outputs)
    else
      Frame(c, StaticOutputs(cmd, n))
  }

  // ---------------------------------------------------------------------
  // Properties of the effects
  // ---------------------------------------------------------------------

  /** The static effect (and any unknown code) does not look at the clock. */
  lemma StaticIgnoresClock(cmd: LightCommand, c: Counters, outputs: seq<Byte>, t1: U32, t2: U32, n: nat)
    requires |outputs| == n <= MAX_REGIONS && c.wave.activeRegion < n
    requires !Animated(cmd.effect)
    ensures ExecuteEffect(cmd, c, outputs, t1, n) == ExecuteEffect(cmd, c, outputs, t2, n)
  {
    var r1 := ExecuteEffect(cmd, c, outputs, t1, n);
    var r2 := ExecuteEffect(cmd, c, outputs, t2, n);
    assert r1.outputs == r2.outputs;
  }

  /** A code outside 0..5 renders exactly as `EFFECT_STATIC` would. */
  lemma UnknownCodeRendersAsStatic(cmd: LightCommand, c: Counters, outputs: seq<Byte>, now: U32, n: nat)
    requires |outputs| == n <= MAX_REGIONS && c.wave.activeRegion < n
    requires cmd.effect > EFFECT_FADE_OUT
    ensures ExecuteEffect(cmd, c, outputs, now, n) == ExecuteEffect(cmd.(effect := EFFECT_STATIC), c, outputs, now, n)
  {
  }

  /** For a speed in 0..100 each cadence lies in its documented band. */
  lemma IntervalsInRange(speed: Byte)
    requires speed <= 100
    ensures 5 <= BreathingInterval(speed) <= 50
    ensures 100 <= WaveInterval(speed) <= 1000
    ensures 5 <= PulseInterval(speed) <= 30
    ensures 5 <= FadeInterval(speed) <= 50
  {
    IntervalInRange(speed, 50, 5);
    IntervalInRange(speed, 1000, 100);
    IntervalInRange(speed, 30, 5);
  }

  /** A faster speed never slows an effect down (speed 0..100). */
  lemma IntervalsNonIncreasing(s1: Byte, s2: Byte)
    requires s1 <= s2 <= 100
    ensures BreathingInterval(s2) <= BreathingInterval(s1)
    ensures WaveInterval(s2) <= WaveInterval(s1)
    ensures PulseInterval(s2) <= PulseInterval(s1)
    ensures FadeInterval(s2) <= FadeInterval(s1)
  {
    IntervalNonIncreasing(s1, s2, 50, 5);
    IntervalNonIncreasing(s1, s2, 1000, 100);
    IntervalNonIncreasing(s1, s2, 30, 5);
  }

  /** Nothing rejects a speed above 100: `map` then goes negative and the
      `uint16_t` wraps to an interval of about a minute. */
  lemma IntervalsAtSpeed255()
    ensures BreathingInterval(255) == 65472
    ensures WaveInterval(255) == 64241
    ensures PulseInterval(255) == 65503
  {
  }

  /** `k` updates of the breathing ramp. */
  function BreathingIter(b: Breathing, k: nat): Breathing {
    if k == 0 then b else BreathingAdvance(BreathingIter(b, k - 1))
  }

  /** From 0 heading up, the ramp climbs by 5 per update and turns at 255
      after 51 updates. */
  lemma {:induction false} BreathingRises(b: Breathing, k: nat)
    requires b.level == 0 && b.direction == 1 && k <= 51
    ensures BreathingIter(b, k).level == 5 * k
    ensures BreathingIter(b, k).direction == if k < 51 then 1 else -1
    ensures BreathingIter(b, k).lastUpdate == b.lastUpdate
  {
    if k > 0 {
      BreathingRises(b, k - 1);
    }
  }

  /** From 255 heading down, the ramp falls by 5 per update and turns at 0
      after 51 updates. */
  lemma {:induction false} BreathingFalls(b: Breathing, k: nat)
    requires b.level == 255 && b.direction == -1 && k <= 51
    ensures BreathingIter(b, k).level == 255 - 5 * k
    ensures BreathingIter(b, k).direction == if k < 51 then -1 else 1
    ensures BreathingIter(b, k).lastUpdate == b.lastUpdate
  {
    if k > 0 {
      BreathingFalls(b, k - 1);
    }
  }

  lemma {:induction false} BreathingIterAdd(b: Breathing, j: nat, k: nat)
    ensures BreathingIter(b, j + k) == BreathingIter(BreathingIter(b, j), k)
  {
    if k > 0 {
      BreathingIterAdd(b, j, k - 1);
    }
  }

  /** The ramp is a triangle wave: 51 updates up, 51 down, and back where
      it started. */
  lemma {:induction false} BreathingPeriod(b: Breathing)
    requires b.level == 0 && b.direction == 1
    ensures BreathingIter(b, 102) == b
  {
    BreathingRises(b, 51);
    BreathingIterAdd(b, 51, 51);
    var top := BreathingIter(b, 51);
    BreathingFalls(top, 51);
    var end := BreathingIter(top, 51);
    assert end.level == b.level && end.direction == b.direction && end.lastUpdate == b.lastUpdate;
  }

  /** `k` updates of the pulse ramp. */
  function PulseIter(p: Pulse, k: nat): Pulse {
    if k == 0 then p else PulseAdvance(PulseIter(p, k - 1))
  }

  /** From its power-up state the pulse only ever adds 10 modulo 256: the
      level is always even, so it never lands on 255 and the ramp never
      turns around. */
  lemma {:induction false} PulseOnlyRises(p: Pulse, k: nat)
    requires p.level == 0 && p.increasing
    ensures PulseIter(p, k).level == (10 * k) % 256
    ensures PulseIter(p, k).increasing
  {
    if k > 0 {
      PulseOnlyRises(p, k - 1);
      PulseStep(PulseIter(p, k - 1), k - 1);
    }
  }

  lemma PulseStep(q: Pulse, j: nat)
    requires q.increasing && q.level == (10 * j) % 256
    ensures PulseAdvance(q).increasing && PulseAdvance(q).level == (10 * (j + 1)) % 256
  {
    assert PulseInv(q);
    ModAdd(10 * j, 10);
  }

  lemma ModAdd(x: nat, c: nat)
    ensures (x % 256 + c) % 256 == (x + c) % 256
  {
    var q := x / 256;
    assert x == 256 * q + x % 256;
    assert x + c == 256 * q + (x % 256 + c);
  }

  /** `k` fade-in updates toward a fixed target. */
  function FadeInIter(level: Byte, target: Byte, k: nat): Byte {
    if k == 0 then level else FadeInLevel(FadeInIter(level, target, k - 1), target)
  }

  function Min(a: int, b: int): int {
    if a <= b then a else b
  }

  /** From 0 the fade-in reaches `min(5k, target)` after k updates: it never
      decreases, never overshoots, and holds the target once there. */
  lemma {:induction false} FadeInFromZero(target: Byte, k: nat)
    ensures FadeInIter(0, target, k) == Min(5 * k, target)
  {
    if k > 0 {
      FadeInFromZero(target, k - 1);
    }
  }

  /** Hence the fade-in from 0 is monotone and arrives within
      ceil(target / 5) updates. */
  lemma FadeInMonotoneAndArrives(target: Byte, j: nat, k: nat)
    requires j <= k
    ensures FadeInIter(0, target, j) <= FadeInIter(0, target, k) <= target
    ensures FadeInIter(0, target, (target + 4) / 5) == target
  {
    FadeInFromZero(target, j);
    FadeInFromZero(target, k);
    FadeInFromZero(target, (target + 4) / 5);
  }

  /** The fade-in's counter is never reset: after fading to 253, raising the
      target to 255 makes `uint8_t` arithmetic wrap the level to 2. */
  lemma {:induction false} FadeInWrapsWhenTargetRaised(k: nat)
    requires k >= 51
    ensures FadeInIter(0, 253, k) == 253
    ensures FadeInLevel(253, 255) == 2
  {
    FadeInFromZero(253, k);
  }

  /** `k` fade-out updates. */
  function FadeOutIter(level: Byte, k: nat): Byte {
    if k == 0 then level else FadeOutLevel(FadeOutIter(level, k - 1))
  }

  function Max(a: int, b: int): int {
    if a >= b then a else b
  }

  /** From its power-up level 255 the fade-out counts down by 5 to 0 and
      stays there. */
  lemma {:induction false} FadeOutFromFull(k: nat)
    ensures FadeOutIter(255, k) == Max(255 - 5 * k, 0)
  {
    if k > 0 {
      FadeOutFromFull(k - 1);
    }
  }

  /** The fade-out writes its own counter, whatever brightness the command
      asks for. */
  lemma FadeOutIgnoresBrightness(cmd: LightCommand, brightness: Byte, f: Fade, outputs: seq<Byte>, now: U32, n: nat)
    requires |outputs| == n <= MAX_REGIONS
    ensures FadeOutTick(cmd.(brightness := brightness), f, outputs, now, n) == FadeOutTick(cmd, f, outputs, now, n)
  {
  }

  /** After a wave update at most one region is lit: the region that was
      active before the update, and only if it is enabled. */
  lemma WaveLightsAtMostOne(cmd: LightCommand, w: Wave, outputs: seq<Byte>, now: U32, n: nat, i: nat)
    requires |outputs| == n <= MAX_REGIONS && w.activeRegion < n
    requires Due(now, w.lastUpdate, WaveInterval(cmd.speed))
    requires i < n && WaveTick(cmd, w, outputs, now, n).outputs[i] != 0
    ensures i == w.activeRegion && cmd.regions[i]
  {
  }
}
