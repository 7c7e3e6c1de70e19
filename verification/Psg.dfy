/** The SN76489 chip: its register file (sn76496.c) and its 16-bit stereo update
    (sn76496u.c as instantiated by SN76496Update_16_2). */
module PsgChip {
  import opened PsgVoices

  /** Bound on the fixed-point clock ratio under which no period overflows. */
  const UPDATE_STEP_MAX := 0x4_0000

  // ------------------------------------------------------------ register file

  /** The programmer's view: eight registers, the latch, and whether register 6 was
      written since the last initialisation. */
  datatype RegisterFile = RegisterFile(register: seq<int>, latch: int, noiseSet: bool) {
    ghost predicate Valid() {
      && |register| == 8 && 0 <= latch < 8
      && (forall r :: 0 <= r < 8 ==> 0 <= register[r] < if r == 0 || r == 2 || r == 4 then 0x400 else 0x10)
      && (!noiseSet ==> register[6] == 0)
    }
  }

  const POWER_ON := RegisterFile([0, 15, 0, 15, 0, 15, 0, 15], 0, false)

  /** A byte with bit 7 set latches a register and writes its low four bits; one
      without it writes the high six bits of the latched register if that is a tone. */
  function WriteByte(f: RegisterFile, data: int): (g: RegisterFile)
    requires f.Valid() && 0 <= data < 0x100
    ensures g.Valid()
  {
    if data >= 0x80 then
      var r := data / 16 % 8;
      RegisterFile(f.register[r := f.register[r] / 16 * 16 + data % 16], r, f.noiseSet || r == 6)
    else if f.latch == 0 || f.latch == 2 || f.latch == 4 then
      f.(register := f.register[f.latch := f.register[f.latch] % 16 + data % 64 * 16])
    else
      f
  }

  lemma LatchByte(f: RegisterFile, channel: int, low: int)
    requires f.Valid() && 0 <= channel < 3 && 0 <= low < 16
    ensures WriteByte(f, 0x80 + channel * 32 + low)
         == f.(register := f.register[2 * channel := f.register[2 * channel] / 16 * 16 + low], latch := 2 * channel)
  {
  }

  lemma DataByte(f: RegisterFile, channel: int, high: int)
    requires f.Valid() && 0 <= channel < 3 && f.latch == 2 * channel && 0 <= high < 0x40
    ensures WriteByte(f, high) == f.(register := f.register[f.latch := f.register[f.latch] % 16 + high * 16])
  {
  }

  lemma LowBits(before: int, low: int)
    requires 0 <= before && 0 <= low < 16
    ensures (before / 16 * 16 + low) % 16 == low
  {
  }

  /** A latch byte followed by a data byte sets all ten bits of a tone register and nothing else,
      whatever was in it. */
  lemma TwoByteWrite(f: RegisterFile, channel: int, low: int, high: int)
    requires f.Valid() && 0 <= channel < 3 && 0 <= low < 16 && 0 <= high < 0x40
    ensures WriteByte(WriteByte(f, 0x80 + channel * 32 + low), high)
         == f.(register := f.register[2 * channel := low + high * 16], latch := 2 * channel)
  {
    LatchByte(f, channel, low);
    DataByte(WriteByte(f, 0x80 + channel * 32 + low), channel, high);
    LowBits(f.register[2 * channel], low);
    hide WriteByte;
  }

  function TonePeriod(updateStep: int, register: int): int {
    updateStep * if register == 0 then 1 else register
  }

  /** Mode 3 follows tone 2; modes 0 to 2 divide the clock by 32, 64 and 128. */
  function NoisePeriod(updateStep: int, f: RegisterFile): int
    requires f.Valid()
  {
    match f.register[6] % 4
    case 3 => 2 * TonePeriod(updateStep, f.register[4])
    case n => if n == 0 then 32 * updateStep else if n == 1 then 64 * updateStep else 128 * updateStep
  }

  function Feedback(register: int): bv32 {
    if register / 4 % 2 == 1 then WHITE_NOISE else PERIODIC_NOISE
  }

  function Periods(updateStep: int, f: RegisterFile): (p: seq<int>)
    requires f.Valid()
    ensures |p| == 4
  {
    [TonePeriod(updateStep, f.register[0]), TonePeriod(updateStep, f.register[2]),
     TonePeriod(updateStep, f.register[4]),
     if f.noiseSet then NoisePeriod(updateStep, f) else updateStep]
  }

  function WithTone(period: seq<int>, updateStep: int, register: seq<int>, r: int): (p: seq<int>)
    requires |period| == 4 && |register| == 8 && (r == 0 || r == 2 || r == 4)
    ensures |p| == 4
  {
    var p := period[r / 2 := TonePeriod(updateStep, register[r])];
    if r == 4 && register[6] % 4 == 3 then p[3 := 2 * p[2]] else p
  }

  lemma PowerOnDerived(updateStep: int, table: seq<int>)
    requires VolumesValid(table)
    ensures POWER_ON.Valid() && Periods(updateStep, POWER_ON) == [updateStep, updateStep, updateStep, updateStep]
    ensures Volumes(table, POWER_ON) == [0, 0, 0, 0]
  {
  }

  lemma PowerOnVoices(updateStep: int, feedback: bv32)
    requires 0 < updateStep <= UPDATE_STEP_MAX
    ensures var v := VoicesOf([updateStep, updateStep, updateStep, updateStep],
          [false, false, false, LowBit(SHIFT_RESET)],
                              SHIFT_RESET, feedback);
            && VoicesOk(v, false)
            && v == [Voice(updateStep, Tone(false)), Voice(updateStep, Tone(false)), Voice(updateStep, Tone(false)),
                     Voice(updateStep, Noise(SHIFT_RESET, feedback))]
  {
    hide LowBit, RngOk;
  }

  /** Writing tone register `r` moves its own period and, in noise mode 3, that of the noise. */
  lemma TonePeriods(updateStep: int, table: seq<int>, f: RegisterFile, g: RegisterFile, r: int)
    requires f.Valid() && g.Valid() && |table| == 16 && (r == 0 || r == 2 || r == 4)
    requires g.register == f.register[r := g.register[r]] && g.noiseSet == f.noiseSet
    ensures Periods(updateStep, g) == WithTone(Periods(updateStep, f), updateStep, g.register, r)
    ensures Volumes(table, g) == Volumes(table, f)
  {
    hide TonePeriod;
  }

  function WithNoise(period: seq<int>, updateStep: int, n: int): (p: seq<int>)
    requires |period| == 4 && 0 <= n < 4
  {
    period[3 := if n == 3 then 2 * period[2] else ShiftLeft(updateStep, 5 + n)]
  }

  lemma ToneLatch(f: RegisterFile, data: int, r: int)
    requires f.Valid() && 0x80 <= data < 0x100 && r == data / 16 % 8 && (r == 0 || r == 2 || r == 4)
    ensures WriteByte(f, data) == RegisterFile(f.register[r := f.register[r] / 16 * 16 + data % 16], r, f.noiseSet)
  {
  }

  lemma PlainByte(f: RegisterFile, data: int)
    requires f.Valid() && 0 <= data < 0x80
    ensures var r := f.latch;
            WriteByte(f, data) == if r == 0 || r == 2 || r == 4
                                  then f.(register := f.register[r := f.register[r] % 16 + data % 64 * 16]) else f
  {
  }

  lemma NoiseLatch(f: RegisterFile, data: int)
    requires f.Valid() && 0x80 <= data < 0x100 && data / 16 % 8 == 6
    ensures WriteByte(f, data) == RegisterFile(f.register[6 := f.register[6] / 16 * 16 + data % 16], 6, true)
  {
  }

  lemma VolumeLatch(f: RegisterFile, data: int, r: int)
    requires f.Valid() && 0x80 <= data < 0x100 && r == data / 16 % 8 && (r == 1 || r == 3 || r == 5 || r == 7)
    ensures f.register[r] / 16 * 16 + data % 16 == data % 16
    ensures WriteByte(f, data) == RegisterFile(f.register[r := f.register[r] / 16 * 16 + data % 16], r, f.noiseSet)
  {
  }

  lemma VolumeLevels(updateStep: int, table: seq<int>, f: RegisterFile, g: RegisterFile, r: int)
    requires f.Valid() && g.Valid() && |table| == 16 && (r == 1 || r == 3 || r == 5 || r == 7)
    requires g.register == f.register[r := g.register[r]] && g.noiseSet == f.noiseSet
    ensures Volumes(table, g) == Volumes(table, f)[r / 2 := table[g.register[r]]]
    ensures Periods(updateStep, g) == Periods(updateStep, f)
  {
    hide TonePeriod;
  }

  lemma NoisePeriods(updateStep: int, table: seq<int>, f: RegisterFile, g: RegisterFile)
    requires f.Valid() && g.Valid() && |table| == 16
    requires g.register == f.register[6 := g.register[6]] && g.noiseSet
    ensures Periods(updateStep, g) == WithNoise(Periods(updateStep, f), updateStep, g.register[6] % 4)
    ensures Volumes(table, g) == Volumes(table, f)
  {
    hide TonePeriod;
  }

  lemma NoiseWrite(updateStep: int, table: seq<int>, f: RegisterFile, data: int) returns (g: RegisterFile)
    requires f.Valid() && |table| == 16 && 0x80 <= data < 0x100 && data / 16 % 8 == 6
    ensures g == WriteByte(f, data) && g.Valid() && |g.register| == 8
    ensures Periods(updateStep, g) == WithNoise(Periods(updateStep, f), updateStep, g.register[6] % 4)
    ensures Volumes(table, g) == Volumes(table, f)
  {
    g := WriteByte(f, data);
    NoisePeriods(updateStep, table, f, g);
    hide Periods, Volumes, WithNoise;
  }

  /** The noise that each half of the modes makes: with bit 2 clear the register is back after 15 events, with bit 2 set
      each event is one of the white-noise generator, undone by its inverse. */
  lemma NoiseModes(register: int)
    ensures register / 4 % 2 == 0 ==> Periodic(SHIFT_RESET, Feedback(register))
    ensures register / 4 % 2 == 1 ==> White(SHIFT_RESET, Feedback(register))
  {
    if register / 4 % 2 == 0 {
      EventsShift(SHIFT_RESET, PERIODIC_NOISE, 15);
      PeriodicNoiseReturns(SHIFT_RESET);
    } else {
      EventsShift(SHIFT_RESET, WHITE_NOISE, 1);
      WhiteNoiseIsInjective(SHIFT_RESET);
      ShiftedOnce(SHIFT_RESET, WHITE_NOISE);
    }
    hide Events, Shifted, Shift, Unshift;
  }

  lemma ShiftedOnce(rng: bv32, feedback: bv32)
    ensures Shifted(rng, feedback, 1) == Shift(rng, feedback)
  {
    hide Shift;
    assert Shifted(rng, feedback, 0) == rng;
  }

  lemma BitTwo(data: int)
    requires 0 <= data < 0x100
    ensures data % 16 / 4 % 2 == data / 4 % 2
  {
  }

  ghost predicate Periodic(rng: bv32, feedback: bv32) {
    Events(Noise(rng, feedback), 15) == Noise(rng, feedback)
  }

  ghost predicate White(rng: bv32, feedback: bv32) {
    Events(Noise(rng, feedback), 1).Noise? && Unshift(Events(Noise(rng, feedback), 1).rng) == rng
  }

  /** All ten bits of a tone register make its period; zero counts as one. */
  lemma TonePeriodIs(updateStep: int, f: RegisterFile, channel: int, low: int, high: int)
    requires f.Valid() && 0 <= channel < 3 && 0 <= low < 16 && 0 <= high < 0x40
    ensures var g, n := WriteByte(WriteByte(f, 0x80 + channel * 32 + low), high), low + high * 16;
            g.Valid() && Periods(updateStep, g)[channel] == updateStep * if n == 0 then 1 else n
  {
    TwoByteWrite(f, channel, low, high);
    ToneOf(updateStep, WriteByte(WriteByte(f, 0x80 + channel * 32 + low), high), channel, low + high * 16);
    hide *;
  }

  lemma ToneOf(updateStep: int, g: RegisterFile, channel: int, n: int)
    requires g.Valid() && 0 <= channel < 3 && g.register[2 * channel] == n
    ensures Periods(updateStep, g)[channel] == updateStep * if n == 0 then 1 else n
  {
    assert channel == 0 || channel == 1 || channel == 2;
  }

  /** The noise periods: a 32nd, a 64th and a 128th of the clock, or twice the period of tone 2. */
  lemma NoisePeriodIs(updateStep: int, f: RegisterFile)
    requires f.Valid() && f.noiseSet
    ensures Periods(updateStep, f)[3]
         == match f.register[6] % 4
            case 0 => updateStep * 32
            case 1 => updateStep * 64
            case 2 => updateStep * 128
            case _ => Periods(updateStep, f)[2] * 2
  {
    hide TonePeriod;
  }

  function Volumes(table: seq<int>, f: RegisterFile): (v: seq<int>)
    requires f.Valid() && |table| == 16
    ensures |v| == 4
  {
    [table[f.register[1]], table[f.register[3]], table[f.register[5]], table[f.register[7]]]
  }

  // -------------------------------------------------------------------- mixing

  /** One output sample from the weighted high times, as the source computes it: the sum is
      stored in an unsigned 32-bit integer, clipped, scaled to 16 bits and made a bit quieter. */
  function Mix(sum: int): int {
    var out := sum % 0x1_0000_0000;
    (if out > MAX_OUTPUT * STEP then MAX_OUTPUT * STEP else out) / STEP * 3 / 8
  }

  /** A sum that corresponds to a constant level v gives three eighths of v, clipped to 16 bits, and a louder sum never
      gives a quieter sample. */
  lemma MixOfLevel(v: int, sum: int)
    requires 0 <= v < 0x1_0000 && 0 <= sum < 0x1_0000_0000
    ensures Mix(v * STEP) == (if v > MAX_OUTPUT then MAX_OUTPUT else v) * 3 / 8
    ensures sum <= v * STEP ==> Mix(sum) <= Mix(v * STEP)
    ensures v * STEP <= sum ==> Mix(v * STEP) <= Mix(sum)
  {
    assert v * STEP / STEP == v;
  }

  function Sum(voices: seq<Voice>, periods: seq<int>, volumes: seq<int>): int
    requires |voices| == |periods| == |volumes| == 4
  {
    HighTime(voices[0], periods[0], STEP) * volumes[0] + HighTime(voices[1], periods[1], STEP) * volumes[1]
    + HighTime(voices[2], periods[2], STEP) * volumes[2] + HighTime(voices[3], periods[3], STEP) * volumes[3]
  }

  /** Loudness in proportion to time: the sum never wraps, and no sample leaves 0..12287. */
  lemma SampleBounds(voices: seq<Voice>, periods: seq<int>, volumes: seq<int>)
    requires |voices| == |periods| == |volumes| == 4
    requires forall i :: 0 <= i < 4 ==> 0 <= volumes[i] <= MAX_VOLUME
    ensures 0 <= Sum(voices, periods, volumes) < 0x1_0000_0000
    ensures 0 <= Mix(Sum(voices, periods, volumes)) <= 12287
  {
    forall i | 0 <= i < 4
      ensures 0 <= HighTime(voices[i], periods[i], STEP) * volumes[i] <= STEP * MAX_VOLUME
    {
      HighTimeBounds(voices[i], periods[i], STEP);
      Product(HighTime(voices[i], periods[i], STEP), volumes[i]);
    }
  }

  /** Each voice is weighted by its own volume. */
  lemma OwnVolume(voices: seq<Voice>, periods: seq<int>, volumes: seq<int>, i: int)
    requires |voices| == |periods| == |volumes| == 4 && 0 <= i < 4
    requires forall j :: 0 <= j < 4 && j != i ==> volumes[j] == 0
    ensures Sum(voices, periods, volumes) == HighTime(voices[i], periods[i], STEP) * volumes[i]
  {
    hide HighTime;
  }

  lemma SumOf(vol: seq<int>, voices: seq<Voice>, periods: seq<int>, volumes: seq<int>)
    requires |vol| == |voices| == |periods| == |volumes| == 4
    requires forall i :: 0 <= i < 4 ==> vol[i] == HighTime(voices[i], periods[i], STEP)
    ensures Sum(voices, periods, volumes)
         == vol[0] * volumes[0] + vol[1] * volumes[1] + vol[2] * volumes[2] + vol[3] * volumes[3]
  {
    hide HighTime;
  }

  lemma Product(t: nat, v: int)
    requires t <= STEP && 0 <= v <= MAX_VOLUME
    ensures 0 <= t * v <= STEP * MAX_VOLUME
  {
    calc {
      t * v;
    <= { assert (STEP - t) * v >= 0; }
      STEP * v;
    <=
      STEP * MAX_VOLUME;
    }
  }

  /** Where a voice starts a buffer of `length` samples: a muted one is held back
      so that it cannot reach an event in this buffer. */
  function Held(v: Voice, volume: int, length: nat): Voice {
    if volume == 0 && v.count <= length * STEP then v.(count := v.count + length * STEP) else v
  }

  function AfterSamples(voices: seq<Voice>, periods: seq<int>, k: nat): (r: seq<Voice>)
    requires |voices| == |periods|
    ensures |r| == |voices|
  {
    seq(|voices|, i requires 0 <= i < |voices| => Run(voices[i], periods[i], k * STEP))
  }

  /** A muted voice never toggles during a buffer; if it was due to, its counter does not move at all. */
  lemma MutedVoiceNeverToggles(v: Voice, period: int, length: nat)
    requires 0 < v.count
    ensures Run(Held(v, 0, length), period, length * STEP)
         == v.(count := if v.count <= length * STEP then v.count else v.count - length * STEP)
  {
    RunToEvent(Held(v, 0, length), period, length * STEP);
  }

  /** An audible square wave over a whole buffer: time is conserved and the level has flipped
      once per elapsed half period. */
  lemma AudibleToneAccounting(count: int, high: bool, period: int, volume: int, length: nat) returns (k: nat)
    requires 0 < count && 0 < period && volume != 0
    ensures Run(Held(Voice(count, Tone(high)), volume, length), period, length * STEP)
         == Voice(count - length * STEP + k * period, Tone(high != (k % 2 == 1)))
    ensures 0 < count - length * STEP + k * period
    ensures k > 0 ==> count - length * STEP + k * period <= period
  {
    k := EventCount(Voice(count, Tone(high)), period, length * STEP);
    ToneParity(high, k);
  }

  /** The first n frames of a buffer hold their samples on both sides, and the rest of it is as before. */
  ghost predicate Filled(before: seq<int>, now: seq<int>, start: seq<Voice>, periods: seq<int>, volumes: seq<int>,
      n: nat)
    requires |start| == |periods| == |volumes| == 4
  {
    && |now| == |before| && 2 * n <= |now|
    && (forall k :: 0 <= k < n ==> now[2 * k] == now[2 * k + 1] == SampleAt(start, periods, volumes, k))
    && (forall k :: 2 * n <= k < |now| ==> now[k] == before[k])
  }

  lemma NothingFilled(before: seq<int>, start: seq<Voice>, periods: seq<int>, volumes: seq<int>)
    requires |start| == |periods| == |volumes| == 4
    ensures Filled(before, before, start, periods, volumes, 0)
  {
  }

  lemma FilledNext(before: seq<int>, now: seq<int>, start: seq<Voice>, periods: seq<int>, volumes: seq<int>, n: nat)
    requires |start| == |periods| == |volumes| == 4 && Filled(before, now, start, periods, volumes, n)
    requires 2 * n + 2 <= |now|
    ensures var x := SampleAt(start, periods, volumes, n);
            Filled(before, now[2 * n := x][2 * n + 1 := x], start, periods, volumes, n + 1)
  {
    hide SampleAt;
  }

  lemma FilledMeans(before: seq<int>, now: seq<int>, start: seq<Voice>, periods: seq<int>, volumes: seq<int>, n: nat)
    requires |start| == |periods| == |volumes| == 4 && Filled(before, now, start, periods, volumes, n)
    ensures |now| == |before| && 2 * n <= |now|
    ensures forall k :: 0 <= k < n ==> now[2 * k] == now[2 * k + 1] == SampleAt(start, periods, volumes, k)
    ensures forall k :: 2 * n <= k < |now| ==> now[k] == before[k]
  {
    hide SampleAt;
  }

  /** The k-th sample of a buffer by the clock-by-clock reference. */
  function SampleAt(start: seq<Voice>, periods: seq<int>, volumes: seq<int>, k: nat): int
    requires |start| == |periods| == |volumes| == 4
  {
    Mix(Sum(AfterSamples(start, periods, k), periods, volumes))
  }

  ghost predicate PeriodsOk(period: seq<int>) {
    |period| == 4 && forall i :: 0 <= i < 4 ==> 0 < period[i] <= COUNT_MAX
  }

  ghost predicate VolumesOk(volume: seq<int>) {
    |volume| == 4 && forall i :: 0 <= i < 4 ==> 0 <= volume[i] <= MAX_VOLUME
  }

  ghost predicate VolumesValid(table: seq<int>) {
    |table| == 16 && forall i :: 0 <= i < 16 ==> 0 <= table[i] <= if i < 15 then MAX_VOLUME else 0
  }

  ghost predicate VoicesOk(voices: seq<Voice>, noiseSet: bool) {
    && |voices| == 4
    && (forall i :: 0 <= i < 4 ==> 0 < voices[i].count <= COUNT_MAX)
    && (forall i :: 0 <= i < 3 ==> voices[i].source.Tone?)
    && voices[3].source.Noise?
    && (noiseSet ==> RngOk(voices[3].source.rng, voices[3].source.feedback))
  }

  lemma VoiceStays(v: Voice, period: int, n: nat)
    requires 0 < v.count <= COUNT_MAX && 0 < period <= COUNT_MAX
    ensures 0 < Run(v, period, n).count <= COUNT_MAX
    ensures v.source.Tone? ==> Run(v, period, n).source.Tone?
    ensures v.source.Noise? ==>
              Run(v, period, n).source.Noise? && Run(v, period, n).source.feedback == v.source.feedback
    ensures v.source.Noise? && RngOk(v.source.rng, v.source.feedback) ==>
              RngOk(Run(v, period, n).source.rng, v.source.feedback)
  {
    hide Run, RngOk, Event;
    var k := EventCount(v, period, n);
    match v.source {
      case Tone(high) => ToneParity(high, k);
      case Noise(rng, feedback) =>
        NoiseSourceStays(rng, feedback, k);
        if RngOk(rng, feedback) { NoiseNeverStops(rng, feedback, k); }
    }
  }

  lemma VoicesStayOk(voices: seq<Voice>, periods: seq<int>, noiseSet: bool, n: nat)
    requires VoicesOk(voices, noiseSet) && PeriodsOk(periods)
    ensures VoicesOk(AfterSamples(voices, periods, n), noiseSet)
    ensures AfterSamples(voices, periods, n)[3].source.feedback == voices[3].source.feedback
    ensures forall i :: 0 <= i < 4 ==> AfterSamples(voices, periods, n)[i] == Run(voices[i], periods[i], n * STEP)
  {
    hide Run, RngOk;
    var after := AfterSamples(voices, periods, n);
    forall i | 0 <= i < 4 ensures after[i] == Run(voices[i], periods[i], n * STEP) && 0 < after[i].count <= COUNT_MAX {
      VoiceStays(voices[i], periods[i], n * STEP);
    }
    VoiceStays(voices[0], periods[0], n * STEP);
    VoiceStays(voices[1], periods[1], n * STEP);
    VoiceStays(voices[2], periods[2], n * STEP);
    VoiceStays(voices[3], periods[3], n * STEP);
  }

  lemma AllStepped(before: seq<Voice>, after: seq<Voice>, periods: seq<int>, noiseSet: bool)
    requires |before| == |after| == |periods| == 4 && VoicesOk(before, noiseSet) && PeriodsOk(periods)
    requires forall i :: 0 <= i < 4 ==> after[i] == Run(before[i], periods[i], STEP)
    ensures after == AfterSamples(before, periods, 1) && VoicesOk(after, noiseSet)
  {
    hide VoicesOk, PeriodsOk, Run, AfterSamples;
    VoicesStayOk(before, periods, noiseSet, 1);
    assert forall i :: 0 <= i < 4 ==> after[i] == AfterSamples(before, periods, 1)[i];
  }

  lemma {:induction false} NoiseSourceStays(rng: bv32, feedback: bv32, k: nat)
    ensures Events(Noise(rng, feedback), k).Noise? && Events(Noise(rng, feedback), k).feedback == feedback
  {
    if k > 0 {
      NoiseSourceStays(rng, feedback, k - 1);
    }
  }

  /** The preset is a good register under either feedback. */
  lemma PresetIsOk(register: int)
    ensures RngOk(SHIFT_RESET, Feedback(register))
  {
  }

  /** Only once the noise has been set does its register have to suit its feedback. */
  lemma OtherFeedback(count: seq<int>, output: seq<bool>, rng: bv32, feedback: bv32, feedback': bv32, noiseSet: bool)
    requires |count| == |output| == 4 && VoicesOk(VoicesOf(count, output, rng, feedback), noiseSet)
    ensures VoicesOk(VoicesOf(count, output, rng, feedback'), false)
  {
    hide RngOk;
    var v, w := VoicesOf(count, output, rng, feedback), VoicesOf(count, output, rng, feedback');
    assert forall i :: 0 <= i < 4 ==> w[i].count == v[i].count;
  }

  lemma ResetVoices(count: seq<int>, output: seq<bool>, rng: bv32, feedback: bv32, rng': bv32, bit: bool)
    requires |count| == |output| == 4 && VoicesOk(VoicesOf(count, output, rng, feedback), false)
    requires RngOk(rng', feedback)
    ensures VoicesOk(VoicesOf(count, output[3 := bit], rng', feedback), true)
  {
    hide RngOk;
    var v, w := VoicesOf(count, output, rng, feedback), VoicesOf(count, output[3 := bit], rng', feedback);
    assert forall i :: 0 <= i < 4 ==> w[i].count == v[i].count;
  }

  lemma HeldStayOk(voices: seq<Voice>, volumes: seq<int>, length: nat, noiseSet: bool)
    requires VoicesOk(voices, noiseSet) && |volumes| == 4 && length <= LENGTH_MAX
    ensures VoicesOk(HeldAll(voices, volumes, length), noiseSet)
  {
    hide RngOk;
  }

  lemma StartOfBuffer(voices: seq<Voice>, periods: seq<int>)
    requires |voices| == |periods|
    ensures AfterSamples(voices, periods, 0) == voices
  {
  }

  function VoicesOf(count: seq<int>, output: seq<bool>, rng: bv32, feedback: bv32): (r: seq<Voice>)
    requires |count| == |output| == 4
    ensures |r| == 4
  {
    [Voice(count[0], Tone(output[0])), Voice(count[1], Tone(output[1])),
     Voice(count[2], Tone(output[2])), Voice(count[3], Noise(rng, feedback))]
  }

  lemma ToneAt(count: seq<int>, output: seq<bool>, rng: bv32, feedback: bv32, i: int)
    requires |count| == |output| == 4 && 0 <= i < 3
    ensures VoicesOf(count, output, rng, feedback)[i] == Voice(count[i], Tone(output[i]))
  {
  }

  lemma ToneChanged(count: seq<int>, output: seq<bool>, rng: bv32, feedback: bv32, i: int, c: int, o: bool)
    requires |count| == |output| == 4 && 0 <= i < 3
    ensures VoicesOf(count[i := c], output[i := o], rng, feedback)
         == VoicesOf(count, output, rng, feedback)[i := Voice(c, Tone(o))]
  {
  }

  function HeldCount(count: seq<int>, volumes: seq<int>, length: nat): (r: seq<int>)
    requires |count| == |volumes| == 4
    ensures |r| == 4
  {
    seq(4, i requires 0 <= i < 4 =>
      count[i] + if volumes[i] == 0 && count[i] <= length * STEP then length * STEP else 0)
  }

  lemma HeldCounts(count: seq<int>, output: seq<bool>, rng: bv32, feedback: bv32, volumes: seq<int>, length: nat)
    requires |count| == |output| == |volumes| == 4
    ensures VoicesOf(HeldCount(count, volumes, length), output, rng, feedback)
         == HeldAll(VoicesOf(count, output, rng, feedback), volumes, length)
  {
  }

  function HeldAll(voices: seq<Voice>, volumes: seq<int>, length: nat): (r: seq<Voice>)
    requires |voices| == |volumes|
    ensures |r| == |voices|
  {
    seq(|voices|, i requires 0 <= i < |voices| => Held(voices[i], volumes[i], length))
  }

  lemma NextSample(voices: seq<Voice>, periods: seq<int>, volumes: seq<int>, n: nat)
    requires |voices| == |periods| == |volumes| == 4
    ensures AfterSamples(AfterSamples(voices, periods, n), periods, 1) == AfterSamples(voices, periods, n + 1)
    ensures SampleAt(AfterSamples(voices, periods, n), periods, volumes, 0) == SampleAt(voices, periods, volumes, n)
  {
    forall i | 0 <= i < |voices|
      ensures Run(Run(voices[i], periods[i], n * STEP), periods[i], 1 * STEP)
           == Run(voices[i], periods[i], (n + 1) * STEP)
    {
      RunSplit(voices[i], periods[i], n * STEP, STEP);
      assert n * STEP + STEP == (n + 1) * STEP;
    }
    StartOfBuffer(AfterSamples(voices, periods, n), periods);
  }

  lemma SampleAtStart(voices: seq<Voice>, periods: seq<int>, volumes: seq<int>)
    requires |voices| == |periods| == |volumes| == 4
    ensures SampleAt(voices, periods, volumes, 0) == Mix(Sum(voices, periods, volumes))
  {
    StartOfBuffer(voices, periods);
  }

  lemma SamplesInRange(periods: seq<int>, volumes: seq<int>)
    requires |periods| == 4 && VolumesOk(volumes)
    ensures forall start, k: nat {:trigger SampleAt(start, periods, volumes, k)} :: |start| == 4 ==>
              0 <= SampleAt(start, periods, volumes, k) <= 12287
  {
    forall start: seq<Voice>, k: nat | |start| == 4
      ensures 0 <= SampleAt(start, periods, volumes, k) <= 12287
    {
      SampleBounds(AfterSamples(start, periods, k), periods, volumes);
    }
  }

  lemma PeriodFits(updateStep: int, register: int)
    requires 0 < updateStep <= UPDATE_STEP_MAX && 0 <= register < 0x400
    ensures 0 < TonePeriod(updateStep, register) <= UPDATE_STEP_MAX * 0x400
  {
    var m := if register == 0 then 1 else register;
    ProductLe(updateStep, m, 0x400);
    ProductLe(m, 1, updateStep);
  }

  lemma PeriodsFit(updateStep: int, f: RegisterFile)
    requires 0 < updateStep <= UPDATE_STEP_MAX && f.Valid()
    ensures forall i :: 0 <= i < 4 ==> 0 < Periods(updateStep, f)[i] <= COUNT_MAX
  {
    PeriodFits(updateStep, f.register[0]);
    PeriodFits(updateStep, f.register[2]);
    PeriodFits(updateStep, f.register[4]);
    hide TonePeriod;
  }

  lemma ProductLe(a: int, b: int, c: int)
    requires 0 <= a && b <= c
    ensures a * b <= a * c
  {
  }

  lemma ZeroProduct(a: int, b: int)
    requires 0 < a
    ensures a * b == 0 <==> b == 0
  {
  }

  function ShiftLeft(x: int, n: int): int
    requires 5 <= n <= 7
  {
    if n == 5 then 32 * x else if n == 6 then 64 * x else 128 * x
  }

  // ---------------------------------------------------------------------- chip

  class Psg {
    var updateStep: int
    var volTable: seq<int>
    var register: seq<int>
    var lastRegister: int
    var volume: seq<int>
    var rng: bv32
    var noiseFB: bv32
    var period: seq<int>
    var count: seq<int>
    var output: seq<bool>
    ghost var noiseSet: bool

    ghost function Registers(): RegisterFile
      reads this`register, this`lastRegister, this`noiseSet
    {
      RegisterFile(register, lastRegister, noiseSet)
    }

    ghost predicate Shape()
      reads this`volTable, this`register, this`volume, this`period, this`count, this`output
    {
      |volTable| == 16 && |register| == 8 && |volume| == |period| == |count| == |output| == 4
    }

    /** The feedback is the one of the noise register. */
    ghost predicate FeedbackFollows()
      requires |register| == 8
      reads this`register, this`noiseFB
    {
      noiseFB == Feedback(register[6])
    }

    /** The shift register has just been preset. */
    ghost predicate Preset()
      reads this`rng
    {
      rng == SHIFT_RESET
    }

    /** The noise voice is back at its register after 15 events. */
    ghost predicate PeriodicNow()
      reads this`rng, this`noiseFB
    {
      Periodic(rng, noiseFB)
    }

    /** The next event of the noise voice is one of the white-noise generator. */
    ghost predicate WhiteNow()
      reads this`rng, this`noiseFB
    {
      White(rng, noiseFB)
    }

    ghost predicate OutputFollows()
      requires |output| == 4
      reads this`rng, this`output
    {
      output[3] == LowBit(rng)
    }

    /** Everything derived from the registers agrees with them. */
    ghost predicate RegistersValid()
      reads this`updateStep, this`volTable, this`register, this`lastRegister, this`volume, this`period, this`noiseFB,
        this`noiseSet
    {
      && 0 < updateStep <= UPDATE_STEP_MAX
      && VolumesValid(volTable)
      && Registers().Valid()
      && period == Periods(updateStep, Registers())
      && volume == Volumes(volTable, Registers())
      && (noiseSet ==> FeedbackFollows())
    }

    ghost predicate VoicesValid()
      reads this`count, this`output, this`rng, this`noiseFB, this`noiseSet
    {
      |count| == |output| == 4 && VoicesOk(Voices(), noiseSet) && OutputFollows()
    }

    ghost predicate Valid()
      reads this
    {
      RegistersValid() && VoicesValid()
    }

    ghost function Voices(): (r: seq<Voice>)
      requires |count| == |output| == 4
      reads this`count, this`output, this`rng, this`noiseFB
      ensures |r| == 4
    {
      VoicesOf(count, output, rng, noiseFB)
    }

    constructor ()
      ensures Shape()
    {
      volTable := seq(16, _ => 0);
      register := seq(8, _ => 0);
      volume, period, count := [0, 0, 0, 0], [0, 0, 0, 0], [0, 0, 0, 0];
      output := [false, false, false, false];
    }

    /** Volume table in 2 dB steps from `gain` (its low byte) steps of 0.2 dB above the reference, clipped to a
        third of the output range. The arithmetic is over the reals. */
    method SetVolume(gain: int)
      requires Shape()
      modifies this`volTable
      ensures Shape() && VolumesValid(volTable)
      ensures forall i, j :: 0 <= i <= j < 16 ==> volTable[j] <= volTable[i]
    {
      var left := gain % 0x100;
      var out: real := MAX_VOLUME as real;
      while left > 0
        invariant out > 0.0
      {
        out := out * 1.023292992;
        left := left - 1;
      }
      for i := 0 to 15
        invariant Shape() && out > 0.0
        invariant forall j :: 0 <= j < i ==> 0 <= volTable[j] <= MAX_VOLUME
        invariant forall j :: 0 <= j < i ==> volTable[j] == MAX_VOLUME || out < (volTable[j] + 1) as real
        invariant forall j, k :: 0 <= j <= k < i ==> volTable[k] <= volTable[j]
      {
        if out > MAX_VOLUME as real {
          volTable := volTable[i := MAX_VOLUME];
        } else {
          volTable := volTable[i := out.Floor];
        }
        out := out / 1.258925412;
      }
      volTable := volTable[15 := 0];
    }

    /** Power-on state; the feedback mask is left as it was. */
    method Init(step: int)
      requires Shape() && 0 < step <= UPDATE_STEP_MAX
      modifies this
      ensures Valid() && Registers() == POWER_ON
      ensures updateStep == step && noiseFB == old(noiseFB)
      ensures Voices() == [Voice(step, Tone(false)), Voice(step, Tone(false)), Voice(step, Tone(false)),
                           Voice(step, Noise(SHIFT_RESET, noiseFB))]
    {
      hide VolumesValid, LowBit, VoicesOf, VoicesOk, Periods, Volumes, RegisterFile.Valid;
      updateStep, noiseSet := step, false;
      SetVolume(0);
      PowerOnDerived(step, volTable);
      PowerOnVoices(step, noiseFB);
      InitRegisters();
      InitVoices();
    }

    method InitRegisters()
      requires Shape()
      modifies this`volume, this`register, this`lastRegister
      ensures Shape() && volume == [0, 0, 0, 0] && RegisterFile(register, lastRegister, false) == POWER_ON
    {
      volume := [0, 0, 0, 0];
      lastRegister := 0;
      for i := 0 to 4
        invariant Shape() && volume == [0, 0, 0, 0] && lastRegister == 0
        invariant forall j :: 0 <= j < 2 * i ==> register[j] == if j % 2 == 0 then 0 else 15
      {
        register := register[2 * i := 0];
        register := register[2 * i + 1 := 15];
      }
    }

    method InitVoices()
      requires Shape()
      modifies this`period, this`count, this`output, this`rng
      ensures Shape() && period == count == [updateStep, updateStep, updateStep, updateStep]
      ensures rng == SHIFT_RESET && output == [false, false, false, LowBit(rng)]
    {
      hide LowBit;
      for i := 0 to 4
        invariant Shape()
        invariant forall j :: 0 <= j < i ==> !output[j] && period[j] == updateStep && count[j] == updateStep
      {
        output := output[i := false];
        count := count[i := updateStep];
        period := period[i := updateStep];
      }
      rng := SHIFT_RESET;
      output := output[3 := LowBit(rng)];
    }

    method Write(data: int)
      requires Valid() && 0 <= data < 0x100
      modifies this`register, this`lastRegister, this`volume, this`rng, this`noiseFB, this`period, this`output,
        this`noiseSet
      ensures Valid()
      ensures Registers() == WriteByte(old(Registers()), data)
      ensures output[..3] == old(output[..3])
      ensures if data / 16 == 0xe then rng == SHIFT_RESET else rng == old(rng)
      ensures data / 16 != 0xe ==> noiseFB == old(noiseFB)
      ensures 0xe0 <= data <= 0xe3 || 0xe8 <= data <= 0xeb ==> PeriodicNow()
      ensures 0xe4 <= data <= 0xe7 || 0xec <= data <= 0xef ==> WhiteNow()
      ensures volume == if data >= 0x80 && data / 0x10 % 2 == 1
                        then old(volume)[data / 0x20 % 4 := volTable[data % 0x10]] else old(volume)
    {
      hide WriteByte, Registers, RegistersValid, VoicesValid, PeriodicNow, WhiteNow;
      if data >= 0x80 {
        Latch(data);
      } else {
        WriteData(data);
      }
    }

    method Latch(data: int)
      requires Valid() && 0x80 <= data < 0x100
      modifies this`register, this`lastRegister, this`volume, this`rng, this`noiseFB, this`period, this`output,
        this`noiseSet
      ensures Valid()
      ensures Registers() == WriteByte(old(Registers()), data)
      ensures output[..3] == old(output[..3])
      ensures if data / 16 == 0xe then Preset() && (if data / 4 % 2 == 1 then WhiteNow() else PeriodicNow())
              else rng == old(rng) && noiseFB == old(noiseFB)
      ensures volume == if data / 0x10 % 2 == 1 then old(volume)[data / 0x20 % 4 := volTable[data % 0x10]]
                        else old(volume)
    {
      hide WriteByte, Registers, RegistersValid, VoicesValid, PeriodicNow, WhiteNow, Preset;
      var r := data / 16 % 8;
      if r == 0 || r == 2 || r == 4 {
        LatchTone(r, data);
      } else if r == 6 {
        LatchNoise(data);
      } else {
        LatchVolume(r, data);
      }
    }

    method LatchTone(r: int, data: int)
      requires RegistersValid() && 0x80 <= data < 0x100 && r == data / 16 % 8 && (r == 0 || r == 2 || r == 4)
      modifies this`register, this`lastRegister, this`period
      ensures RegistersValid()
      ensures Registers() == WriteByte(old(Registers()), data)
    {
      assert |volTable| == 16;
      hide TonePeriod, Periods, Volumes, VolumesValid, WriteByte, WithTone, FeedbackFollows;
      ToneLatch(Registers(), data, r);
      TonePeriods(updateStep, volTable, Registers(), WriteByte(Registers(), data), r);
      lastRegister := r;
      register := register[r := register[r] / 16 * 16 + data % 16];
      SetTone(r);
    }

    method LatchNoise(data: int)
      requires Valid() && 0x80 <= data < 0x100 && data / 16 % 8 == 6
      modifies this`register, this`lastRegister, this`rng, this`noiseFB, this`period, this`output, this`noiseSet
      ensures Valid()
      ensures Registers() == WriteByte(old(Registers()), data)
      ensures output[..3] == old(output[..3]) && Preset() && (if data / 4 % 2 == 1 then WhiteNow() else PeriodicNow())
    {
      hide *;
      WhatAgrees();
      ghost var f := Registers();
      ghost var g := NoiseWrite(updateStep, volTable, f, data);
      StoreNoise(data);
      SetNoise(old(noiseSet));
      NowAgrees(f, g);
      NoiseIs(data, f);
    }

    lemma WhatAgrees()
      requires Valid()
      ensures |volTable| == 16 && |register| == 8 && |period| == |count| == |output| == 4
      ensures VoicesOk(Voices(), noiseSet)
      ensures 0 < updateStep <= UPDATE_STEP_MAX && VolumesValid(volTable) && Registers().Valid()
      ensures period == Periods(updateStep, Registers()) && volume == Volumes(volTable, Registers())
    {
      hide Periods, Volumes, Voices, VoicesOk;
    }

    lemma NoiseIs(data: int, f: RegisterFile)
      requires f.Valid() && 0x80 <= data < 0x100 && data / 16 % 8 == 6 && register == WriteByte(f, data).register
      requires |register| == 8 && FeedbackFollows() && Preset()
      ensures if data / 4 % 2 == 1 then WhiteNow() else PeriodicNow()
    {
      hide WriteByte, Feedback, White, Periodic;
      NoiseLatch(f, data);
      NoiseModes(register[6]);
      BitTwo(data);
      assert f.register[6] / 16 == 0;
    }

    lemma NowAgrees(f: RegisterFile, g: RegisterFile)
      requires f.Valid() && g.Valid() && g == Registers() && 0 < updateStep <= UPDATE_STEP_MAX && VolumesValid(volTable)
      requires |volTable| == 16 && |count| == |output| == |Periods(updateStep, f)| == 4 && noiseSet && FeedbackFollows()
      requires period == WithNoise(Periods(updateStep, f), updateStep, register[6] % 4) == Periods(updateStep, g)
      requires volume == Volumes(volTable, f) == Volumes(volTable, g)
      requires VoicesOk(Voices(), true) && OutputFollows()
      ensures Valid()
    {
      hide Periods, Volumes, VolumesValid, Voices, VoicesOk, WithNoise, FeedbackFollows, OutputFollows;
    }

    method StoreNoise(data: int)
      requires |register| == 8 && Registers().Valid() && 0x80 <= data < 0x100 && data / 16 % 8 == 6
      modifies this`register, this`lastRegister, this`noiseSet
      ensures |register| == 8 && Registers() == WriteByte(old(Registers()), data) && noiseSet
      ensures register == WriteByte(old(Registers()), data).register
    {
      NoiseLatch(Registers(), data);
      lastRegister, register, noiseSet := 6, register[6 := register[6] / 16 * 16 + data % 16], true;
    }

    /** The new feedback, period and preset that a write to register 6 brings about. */
    method SetNoise(ghost wasSet: bool)
      requires |register| == 8 && |period| == |count| == |output| == 4 && VoicesOk(Voices(), wasSet)
      modifies this`rng, this`noiseFB, this`period, this`output
      ensures FeedbackFollows()
      ensures period == WithNoise(old(period), updateStep, register[6] % 4)
      ensures |output| == 4 && output[..3] == old(output[..3]) && OutputFollows() && Preset()
      ensures VoicesOk(Voices(), true)
    {
      hide *;
      SetFeedback(wasSet);
      SetNoisePeriod();
      PresetNoise();
    }

    method SetFeedback(ghost wasSet: bool)
      requires |register| == 8 && |count| == |output| == 4 && VoicesOk(Voices(), wasSet)
      modifies this`noiseFB
      ensures FeedbackFollows() && VoicesOk(Voices(), false)
    {
      OtherFeedback(count, output, rng, noiseFB, Feedback(register[6]), wasSet);
      hide VoicesOk, VoicesOf, Feedback;
      noiseFB := Feedback(register[6]);
    }

    method SetNoisePeriod()
      requires |register| == 8 && |period| == 4
      modifies this`period
      ensures period == WithNoise(old(period), updateStep, register[6] % 4)
    {
      var n := register[6] % 4;
      period := period[3 := if n == 3 then 2 * period[2] else ShiftLeft(updateStep, 5 + n)];
    }

    method PresetNoise()
      requires |register| == 8 && |count| == |output| == 4 && VoicesOk(Voices(), false) && FeedbackFollows()
      modifies this`rng, this`output
      ensures |output| == 4 && output[..3] == old(output[..3]) && OutputFollows() && Preset()
      ensures VoicesOk(Voices(), true)
    {
      PresetIsOk(register[6]);
      ResetVoices(count, output, rng, noiseFB, SHIFT_RESET, LowBit(SHIFT_RESET));
      hide VoicesOk, VoicesOf, RngOk, Feedback, LowBit;
      rng := SHIFT_RESET;
      output := output[3 := LowBit(rng)];
    }

    method LatchVolume(r: int, data: int)
      requires RegistersValid() && 0x80 <= data < 0x100 && r == data / 16 % 8 && (r == 1 || r == 3 || r == 5 || r == 7)
      modifies this`register, this`lastRegister, this`volume
      ensures RegistersValid()
      ensures Registers() == WriteByte(old(Registers()), data)
      ensures |old(volume)| == 4 && |volTable| == 16 && volume == old(volume)[r / 2 := volTable[data % 16]]
    {
      assert |volTable| == 16;
      hide Periods, Volumes, VolumesValid, WriteByte;
      VolumeLatch(Registers(), data, r);
      VolumeLevels(updateStep, volTable, Registers(), WriteByte(Registers(), data), r);
      var c := r / 2;
      lastRegister, register := r, register[r := register[r] / 16 * 16 + data % 16];
      volume := volume[c := volTable[data % 16]];
    }

    method WriteData(data: int)
      requires RegistersValid() && 0 <= data < 0x80
      modifies this`register, this`period
      ensures RegistersValid()
      ensures Registers() == WriteByte(old(Registers()), data)
    {
      assert |volTable| == 16;
      hide TonePeriod, Periods, Volumes, VolumesValid, WriteByte, WithTone, FeedbackFollows;
      var r := lastRegister;
      PlainByte(Registers(), data);
      if r == 0 || r == 2 || r == 4 {
        TonePeriods(updateStep, volTable, Registers(), WriteByte(Registers(), data), r);
        register := register[r := register[r] % 16 + data % 64 * 16];
        SetTone(r);
      }
    }

    /** The part that both kinds of tone write share: the period of the tone in register `r`,
        and the noise period where it follows tone 2. */
    method SetTone(r: int)
      requires |register| == 8 && |period| == 4 && (r == 0 || r == 2 || r == 4) && 0 < updateStep
      modifies this`period
      ensures period == WithTone(old(period), updateStep, register, r)
    {
      var c := r / 2;
      ZeroProduct(updateStep, register[r]);
      period := period[c := updateStep * register[r]];
      if period[c] == 0 { period := period[c := updateStep]; }
      if r == 4 {
        if register[6] % 4 == 3 { period := period[3 := 2 * period[2]]; }
      }
    }

    lemma VoicesShaped()
      requires VoicesValid()
      ensures |count| == |output| == 4
    {
    }

    lemma VoicesInRange()
      requires VoicesValid()
      ensures |count| == |output| == 4 && OutputFollows() && VoicesOk(Voices(), noiseSet)
      ensures forall i :: 0 <= i < 4 ==> 0 < Voices()[i].count <= COUNT_MAX
    {
      hide VoicesOf, RngOk, OutputFollows;
    }

    lemma DerivedInRange()
      requires RegistersValid()
      ensures PeriodsOk(period) && VolumesOk(volume) && |period| == |volume| == 4
    {
      PeriodsFit(updateStep, Registers());
      hide TonePeriod, NoisePeriod;
    }

    /** One sample: all four voices through one STEP, then the mix. */
    method Sample() returns (sample: int)
      requires VoicesValid() && PeriodsOk(period) && |volume| == 4
      modifies this`rng, this`count, this`output
      ensures |count| == |output| == 4 && VoicesValid()
      ensures Voices() == AfterSamples(old(Voices()), period, 1)
      ensures sample == SampleAt(old(Voices()), period, volume, 0)
    {
      ghost var before := Voices();
      VoicesInRange();
      hide VoicesOk, VoicesOf, Voices, Run, HighTime, Mix, RngOk, OutputFollows, AfterSamples, Sum, SampleAt, PeriodsOk;
      var vol := StepTones();
      var v := StepNoise();
      vol := vol[3 := v];
      AllStepped(before, Voices(), period, noiseSet);
      SumOf(vol, before, period, volume);
      SampleAtStart(before, period, volume);
      sample := Mix(vol[0] * volume[0] + vol[1] * volume[1] + vol[2] * volume[2] + vol[3] * volume[3]);
    }

    method StepTones() returns (vol: seq<int>)
      requires |count| == |output| == 4 && PeriodsOk(period) && OutputFollows()
      requires forall i :: 0 <= i < 3 ==> 0 < Voices()[i].count <= COUNT_MAX
      modifies this`count, this`output
      ensures |count| == |output| == |vol| == 4 && OutputFollows()
      ensures forall i :: 0 <= i < 3 ==> Voices()[i] == Run(old(Voices()[i]), period[i], STEP)
      ensures Voices()[3] == old(Voices()[3])
      ensures forall i :: 0 <= i < 3 ==> vol[i] == HighTime(old(Voices()[i]), period[i], STEP)
    {
      ghost var before := Voices();
      hide Run, HighTime, LowBit, VoicesOf, OutputFollows;
      vol := [0, 0, 0, 0];
      for i := 0 to 3
        invariant |count| == |output| == |vol| == 4 && OutputFollows()
        invariant forall j :: i <= j < 4 ==> Voices()[j] == before[j]
        invariant forall j :: 0 <= j < i ==> Voices()[j] == Run(before[j], period[j], STEP)
        invariant forall j :: 0 <= j < i ==> vol[j] == HighTime(before[j], period[j], STEP)
      {
        var v := StepTone(i);
        vol := vol[i := v];
      }
    }

    method StepTone(i: int) returns (vol: int)
      requires |count| == |output| == 4 && PeriodsOk(period)
      requires 0 <= i < 3 && 0 < Voices()[i].count <= COUNT_MAX
      modifies this`count, this`output
      ensures |count| == |output| == 4 && (old(OutputFollows()) ==> OutputFollows())
      ensures Voices() == old(Voices())[i := Run(old(Voices()[i]), period[i], STEP)]
      ensures vol == HighTime(old(Voices()[i]), period[i], STEP)
    {
      hide Run, HighTime, VoicesOf;
      ToneAt(count, output, rng, noiseFB, i);
      var c, o, v := ToneStep(count[i], period[i], output[i]);
      ToneChanged(count, output, rng, noiseFB, i, c, o);
      count, output, vol := count[i := c], output[i := o], v;
    }

    method StepNoise() returns (vol: int)
      requires |count| == |output| == 4 && PeriodsOk(period) && OutputFollows()
      requires 0 < Voices()[3].count <= COUNT_MAX
      modifies this`rng, this`count, this`output
      ensures |count| == |output| == 4 && OutputFollows()
      ensures forall i :: 0 <= i < 3 ==> Voices()[i] == old(Voices()[i])
      ensures Voices()[3] == Run(old(Voices()[3]), period[3], STEP)
      ensures vol == HighTime(old(Voices()[3]), period[3], STEP)
    {
      hide Run, HighTime, LowBit;
      var c, r, o, v := NoiseStep(count[3], period[3], rng, noiseFB, output[3]);
      count, rng, output, vol := count[3 := c], r, output[3 := o], v;
    }

    /** Holds the muted voices back from toggling in the next `length` samples. */
    method HoldMuted(length: nat)
      requires VoicesValid() && |volume| == |count| == |output| == 4 && length <= LENGTH_MAX
      modifies this`count
      ensures |count| == |output| == 4 && VoicesValid() && Voices() == HeldAll(old(Voices()), volume, length)
      ensures forall i :: 0 <= i < 4 ==>
                count[i] == old(count[i]) + if volume[i] == 0 && old(count[i]) <= length * STEP then length * STEP
                                            else 0
    {
      HeldStayOk(Voices(), volume, length, noiseSet);
      HeldCounts(count, output, rng, noiseFB, volume, length);
      hide VoicesOk, HeldAll, VoicesOf;
      ghost var was := count;
      for i := 0 to 4
        invariant |count| == 4
        invariant forall j :: 0 <= j < 4 ==>
                    count[j] == was[j] + if j < i && volume[j] == 0 && was[j] <= length * STEP then length * STEP else 0
      {
        if volume[i] == 0 {
          if count[i] <= length * STEP { count := count[i := count[i] + length * STEP]; }
        }
      }
      assert count == HeldCount(was, volume, length);
    }

    /** Fills `length` stereo frames. Every voice ends where the clock-by-clock reference ends, and every
        sample is the mix of the exact high times in its window. */
    method Update(buffer: array<int>, length: nat)
      requires RegistersValid() && VoicesValid() && length <= LENGTH_MAX && 2 * length <= buffer.Length
      modifies this`rng, this`count, this`output, buffer
      ensures RegistersValid() && VoicesValid()
      ensures Voices() == AfterSamples(HeldAll(old(Voices()), volume, length), period, length)
      ensures forall k :: 0 <= k < length ==>
                buffer[2 * k] == buffer[2 * k + 1]
                     == SampleAt(HeldAll(old(Voices()), volume, length), period, volume, k)
      ensures forall k :: 0 <= k < length ==> 0 <= buffer[2 * k] <= 12287
      ensures forall k :: 2 * length <= k < buffer.Length ==> buffer[k] == old(buffer[k])
    {
      hide *;
      DerivedInRange();
      VoicesShaped();
      SamplesInRange(period, volume);
      HoldMuted(length);
      Fill(buffer, length);
    }

    method Fill(buffer: array<int>, length: nat)
      requires |count| == |output| == |period| == |volume| == 4
      requires VoicesValid() && PeriodsOk(period) && 2 * length <= buffer.Length
      modifies this`rng, this`count, this`output, buffer
      ensures VoicesValid()
      ensures Voices() == AfterSamples(old(Voices()), period, length)
      ensures forall k :: 0 <= k < length ==>
                buffer[2 * k] == buffer[2 * k + 1] == SampleAt(old(Voices()), period, volume, k)
      ensures forall k :: 2 * length <= k < buffer.Length ==> buffer[k] == old(buffer[k])
    {
      hide *;
      ghost var start, before := Voices(), buffer[..];
      StartOfBuffer(start, period);
      NothingFilled(before, start, period, volume);
      for n := 0 to length
        invariant VoicesValid() && |count| == |output| == 4 && Voices() == AfterSamples(start, period, n)
        invariant Filled(before, buffer[..], start, period, volume, n)
      {
        NextSample(start, period, volume, n);
        FilledNext(before, buffer[..], start, period, volume, n);
        var tmp := Sample();
        PutFrame(buffer, n, tmp);
      }
      FilledMeans(before, buffer[..], start, period, volume, length);
    }

    method PutFrame(buffer: array<int>, n: nat, tmp: int)
      requires 2 * n + 2 <= buffer.Length
      modifies buffer
      ensures buffer[..] == old(buffer[..])[2 * n := tmp][2 * n + 1 := tmp]
    {
      buffer[2 * n] := tmp;
      buffer[2 * n + 1] := tmp;
    }
  }
}
