/** The sample generator of the SN76489 (sn76496u.c).

    The reference is a clock-by-clock simulation: `Tick` advances a voice by one
    fixed-point time unit, `Run` by many, and `HighTime` counts the units spent
    with the output high. The emulator's loops never tick; they jump from event to
    event, and the tone loop even jumps over two half periods at once. The methods
    below are those loops, proved equal to the reference. */
module PsgVoices {
  const STEP := 0x1_0000
  const MAX_OUTPUT := 0x7fff
  const MAX_VOLUME := MAX_OUTPUT / 3
  const SHIFT_RESET: bv32 := 0x0f35
  const WHITE_NOISE: bv32 := 0x1_2000
  const PERIODIC_NOISE: bv32 := 0x0_8000

  /** Largest counter and period for which no 32-bit intermediate overflows. */
  const COUNT_MAX := 0x7ffe_0000
  /** Largest buffer length, in samples, for which holding a muted voice back twice as long does not overflow. */
  const LENGTH_MAX := 0x3fff

  ghost predicate InInt32(x: int) { -0x8000_0000 <= x < 0x8000_0000 }

  // ---------------------------------------------------------------- reference

  datatype Source = Tone(high: bool) | Noise(rng: bv32, feedback: bv32)
  datatype Voice = Voice(count: int, source: Source)

  function Shift(rng: bv32, feedback: bv32): bv32 {
    (if rng & 1 != 0 then rng ^ feedback else rng) >> 1
  }

  predicate LowBit(rng: bv32) {
    rng & 1 != 0
  }

  predicate High(s: Source) {
    match s
    case Tone(high) => high
    case Noise(rng, _) => LowBit(rng)
  }

  /** What happens to a source when its counter runs out. */
  function Event(s: Source): Source {
    match s
    case Tone(high) => Tone(!high)
    case Noise(rng, feedback) => Noise(Shift(rng, feedback), feedback)
  }

  function Events(s: Source, k: nat): Source {
    if k == 0 then s else Event(Events(s, k - 1))
  }

  function Tick(v: Voice, period: int): Voice {
    if v.count <= 1 then Voice(period, Event(v.source)) else Voice(v.count - 1, v.source)
  }

  function Run(v: Voice, period: int, n: nat): Voice {
    if n == 0 then v else Tick(Run(v, period, n - 1), period)
  }

  function HighTime(v: Voice, period: int, n: nat): nat {
    if n == 0 then 0
    else HighTime(v, period, n - 1) + if High(Run(v, period, n - 1).source) then 1 else 0
  }

  // ------------------------------------------------------ laws of the reference

  lemma {:induction false} RunSplit(v: Voice, period: int, m: nat, n: nat)
    ensures Run(v, period, m + n) == Run(Run(v, period, m), period, n)
    ensures HighTime(v, period, m + n)
         == HighTime(v, period, m) + HighTime(Run(v, period, m), period, n)
  {
    if n > 0 {
      RunSplit(v, period, m, n - 1);
      assert m + n - 1 == m + (n - 1);
    }
  }

  /** Up to its next event a voice just counts down at a constant level. */
  lemma {:induction false} RunToEvent(v: Voice, period: int, n: nat)
    requires 0 < v.count && n <= v.count
    ensures Run(v, period, n) == if n < v.count then Voice(v.count - n, v.source) else Voice(period, Event(v.source))
    ensures HighTime(v, period, n) == if High(v.source) then n else 0
  {
    if n > 0 {
      RunToEvent(v, period, n - 1);
    }
  }

  /** Closed form of the clock-by-clock run: time is conserved, so the counter ends
      at its start less the ticks plus one period for each event that happened, and
      the source has stepped exactly that often. */
  lemma {:induction false} EventCount(v: Voice, period: int, n: nat) returns (k: nat)
    requires 0 < v.count && 0 < period
    ensures Run(v, period, n) == Voice(v.count - n + k * period, Events(v.source, k))
    ensures 0 < Run(v, period, n).count <= if v.count < period then period else v.count
    ensures n < v.count ==> k == 0
    ensures k > 0 ==> Run(v, period, n).count <= period
  {
    if n == 0 {
      k := 0;
    } else {
      var j := EventCount(v, period, n - 1);
      k := if Run(v, period, n - 1).count == 1 then j + 1 else j;
      assert (j + 1) * period == j * period + period;
    }
  }

  lemma HighTimeBounds(v: Voice, period: int, n: nat)
    ensures HighTime(v, period, n) <= n
  {
  }

  /** A square wave that has stepped k times has flipped k mod 2 times. */
  lemma {:induction false} ToneParity(high: bool, k: nat)
    ensures Events(Tone(high), k) == Tone(high != (k % 2 == 1))
  {
    if k > 0 {
      ToneParity(high, k - 1);
    }
  }

  // --------------------------------------------------------- the noise register

  /** Undoes one clock of the white-noise register on its 16 bits. */
  function Unshift(r: bv32): bv32 {
    if r & 0x8000 != 0 then ((r << 1) ^ WHITE_NOISE) | 1 else r << 1
  }

  lemma UnshiftAfterFeedback(r: bv32)
    requires r & 0xffff_0000 == 0 && r & 1 != 0
    ensures Unshift((r ^ WHITE_NOISE) >> 1) == r
  {
  }

  lemma UnshiftAfterShift(r: bv32)
    requires r & 0xffff_0000 == 0 && r & 1 == 0
    ensures Unshift(r >> 1) == r
  {
  }

  lemma ShiftAfterFeedback(r: bv32)
    requires r & 0xffff_0000 == 0 && r & 0x8000 != 0
    ensures Shift(((r << 1) ^ WHITE_NOISE) | 1, WHITE_NOISE) == r
  {
  }

  lemma ShiftAfterUnshift(r: bv32)
    requires r & 0xffff_0000 == 0 && r & 0x8000 == 0
    ensures Shift(r << 1, WHITE_NOISE) == r
  {
  }

  /** The white-noise step is a bijection on 16-bit values, so every state of the
      register is on a cycle and none is ever merged into another. */
  lemma WhiteNoiseIsInjective(r: bv32)
    requires r & 0xffff_0000 == 0
    ensures Unshift(Shift(r, WHITE_NOISE)) == r
  {
    if r & 1 != 0 { UnshiftAfterFeedback(r); } else { UnshiftAfterShift(r); }
  }

  lemma WhiteNoiseIsSurjective(r: bv32)
    requires r & 0xffff_0000 == 0
    ensures Shift(Unshift(r), WHITE_NOISE) == r
  {
    if r & 0x8000 != 0 { ShiftAfterFeedback(r); } else { ShiftAfterUnshift(r); }
  }

  /** The low 15 bits rotated right by one. */
  function RotateOne(r: bv32): bv32 { (r >> 1) | ((r & 1) << 14) }

  /** The periodic step rotates the low 15 bits right by one. */
  lemma PeriodicNoiseRotates(r: bv32)
    requires r & 0xffff_8000 == 0
    ensures Shift(r, PERIODIC_NOISE) == RotateOne(r)
  {
    if r & 1 != 0 { RotatesSetBit(r); } else { RotatesClearBit(r); }
    hide *;
  }

  lemma RotatesSetBit(r: bv32)
    requires r & 0xffff_8000 == 0 && r & 1 != 0
    ensures Shift(r, PERIODIC_NOISE) == RotateOne(r)
  {
    assert r & 1 == 1;
  }

  lemma RotatesClearBit(r: bv32)
    requires r & 0xffff_8000 == 0 && r & 1 == 0
    ensures Shift(r, PERIODIC_NOISE) == RotateOne(r)
  {
  }

  /** What a noise mode keeps true of the register: it fits the register's width and is not zero. */
  predicate RngOk(rng: bv32, feedback: bv32) {
    rng != 0
    && ((feedback == WHITE_NOISE && rng & 0xffff_0000 == 0)
        || (feedback == PERIODIC_NOISE && rng & 0xffff_8000 == 0))
  }

  lemma ShiftKeepsRngOk(rng: bv32, feedback: bv32)
    requires RngOk(rng, feedback)
    ensures RngOk(Shift(rng, feedback), feedback)
  {
  }

  /** Hence the noise never dies, however many events happen. */
  lemma {:induction false} NoiseNeverStops(rng: bv32, feedback: bv32, k: nat)
    requires RngOk(rng, feedback)
    ensures Events(Noise(rng, feedback), k).Noise? && Events(Noise(rng, feedback), k).feedback == feedback
    ensures RngOk(Events(Noise(rng, feedback), k).rng, feedback)
  {
    if k > 0 {
      NoiseNeverStops(rng, feedback, k - 1);
      ShiftKeepsRngOk(Events(Noise(rng, feedback), k - 1).rng, feedback);
    }
  }

  function Shifted(r: bv32, feedback: bv32, k: nat): bv32 {
    if k == 0 then r else Shift(Shifted(r, feedback, k - 1), feedback)
  }

  lemma {:induction false} ShiftedSum(r: bv32, feedback: bv32, a: nat, b: nat)
    ensures Shifted(Shifted(r, feedback, a), feedback, b) == Shifted(r, feedback, a + b)
    decreases b
  {
    hide Shift;
    if b > 0 {
      ShiftedSum(r, feedback, a, b - 1);
    }
  }

  function RotateFive(r: bv32): bv32 { (r >> 5) | ((r & 0x1f) << 10) }

  lemma FiveRotations(r: bv32)
    requires r & 0xffff_8000 == 0
    ensures RotateOne(RotateOne(RotateOne(RotateOne(RotateOne(r))))) == RotateFive(r)
  {
  }

  lemma RotationFits(r: bv32)
    requires r & 0xffff_8000 == 0
    ensures RotateOne(r) & 0xffff_8000 == 0 && RotateFive(r) & 0xffff_8000 == 0
  {
  }

  lemma FiveClocks(r: bv32)
    requires r & 0xffff_8000 == 0
    ensures Shifted(r, PERIODIC_NOISE, 5) == RotateFive(r)
  {
    hide Shift, RotateOne, RotateFive;
    var s1 := RotateOne(r);
    var s2 := RotateOne(s1);
    var s3 := RotateOne(s2);
    var s4 := RotateOne(s3);
    ClockIsRotation(r, 0);
    ClockIsRotation(r, 1);
    ClockIsRotation(r, 2);
    ClockIsRotation(r, 3);
    ClockIsRotation(r, 4);
    FiveRotations(r);
  }

  lemma {:induction false} ClockIsRotation(r: bv32, k: nat)
    requires r & 0xffff_8000 == 0
    ensures Shifted(r, PERIODIC_NOISE, k) & 0xffff_8000 == 0
    ensures Shifted(r, PERIODIC_NOISE, k + 1) == RotateOne(Shifted(r, PERIODIC_NOISE, k))
    ensures k == 0 ==> Shifted(r, PERIODIC_NOISE, k) == r
    decreases k
  {
    if k > 0 {
      ClockIsRotation(r, k - 1);
      RotationFits(Shifted(r, PERIODIC_NOISE, k - 1));
    }
    PeriodicNoiseRotates(Shifted(r, PERIODIC_NOISE, k));
    hide Shift;
  }

  lemma FifteenRotations(r: bv32)
    requires r & 0xffff_8000 == 0
    ensures RotateFive(RotateFive(RotateFive(r))) == r
  {
  }

  /** Every 15-bit value comes back after 15 clocks of periodic noise. */
  lemma PeriodicNoiseReturns(r: bv32)
    requires r & 0xffff_8000 == 0
    ensures Shifted(r, PERIODIC_NOISE, 15) == r
  {
    var a := RotateFive(r);
    var b := RotateFive(a);
    RotationFits(r);
    RotationFits(a);
    FifteenRotations(r);
    hide *;
    FiveClocks(r);
    FiveClocks(a);
    FiveClocks(b);
    ShiftedSum(r, PERIODIC_NOISE, 5, 5);
    ShiftedSum(r, PERIODIC_NOISE, 10, 5);
  }

  /** From the reset value the periodic pattern comes back after 15 clocks and not before. */
  lemma PeriodicNoisePeriod()
    ensures Shifted(SHIFT_RESET, PERIODIC_NOISE, 15) == SHIFT_RESET
    ensures forall k :: 0 < k < 15 ==> Shifted(SHIFT_RESET, PERIODIC_NOISE, k) != SHIFT_RESET
  {
    var p := PERIODIC_NOISE;
    var s0 := SHIFT_RESET;
    var s1 := Shift(s0, p);  assert s1 == 0x479a && Shifted(s0, p, 1) == s1;
    var s2 := Shift(s1, p);  assert s2 == 0x23cd && Shifted(s0, p, 2) == s2;
    var s3 := Shift(s2, p);  assert s3 == 0x51e6 && Shifted(s0, p, 3) == s3;
    var s4 := Shift(s3, p);  assert s4 == 0x28f3 && Shifted(s0, p, 4) == s4;
    var s5 := Shift(s4, p);  assert s5 == 0x5479 && Shifted(s0, p, 5) == s5;
    var s6 := Shift(s5, p);  assert s6 == 0x6a3c && Shifted(s0, p, 6) == s6;
    var s7 := Shift(s6, p);  assert s7 == 0x351e && Shifted(s0, p, 7) == s7;
    var s8 := Shift(s7, p);  assert s8 == 0x1a8f && Shifted(s0, p, 8) == s8;
    var s9 := Shift(s8, p);  assert s9 == 0x4d47 && Shifted(s0, p, 9) == s9;
    var s10 := Shift(s9, p);  assert s10 == 0x66a3 && Shifted(s0, p, 10) == s10;
    var s11 := Shift(s10, p); assert s11 == 0x7351 && Shifted(s0, p, 11) == s11;
    var s12 := Shift(s11, p); assert s12 == 0x79a8 && Shifted(s0, p, 12) == s12;
    var s13 := Shift(s12, p); assert s13 == 0x3cd4 && Shifted(s0, p, 13) == s13;
    var s14 := Shift(s13, p); assert s14 == 0x1e6a && Shifted(s0, p, 14) == s14;
    var s15 := Shift(s14, p); assert s15 == SHIFT_RESET && Shifted(s0, p, 15) == s15;
  }

  /** The register after k events. */
  lemma {:induction false} EventsShift(rng: bv32, feedback: bv32, k: nat)
    ensures Events(Noise(rng, feedback), k) == Noise(Shifted(rng, feedback, k), feedback)
  {
    hide Shift;
    if k > 0 {
      EventsShift(rng, feedback, k - 1);
    }
  }

  // -------------------------------------------------------------- the fast loops

  /** The tone loop between iterations: an event is due `-count` units before the end of the
      window, and `vol` is exact up to there. */
  ghost predicate Pending(v: Voice, period: int, count: int, output: bool, vol: int) {
    && -STEP <= count <= 0
    && Run(v, period, STEP + count) == Voice(period, Tone(!output))
    && vol == HighTime(v, period, STEP + count)
  }

  /** The tone loop after its last event: `vol` still contains the unfinished half period. */
  ghost predicate Settled(v: Voice, period: int, count: int, output: bool, vol: int) {
    && 0 < count
    && Run(v, period, STEP) == Voice(count, Tone(output))
    && vol - (if output then count else 0) == HighTime(v, period, STEP)
  }

  lemma FirstHalfPeriod(v: Voice, period: int, high: bool)
    requires 0 < v.count && v.source == Tone(high)
    ensures var vol := if high then v.count else 0;
            if v.count > STEP then Settled(v, period, v.count - STEP, high, vol)
            else Pending(v, period, v.count - STEP, high, vol)
  {
    RunToEvent(v, period, if v.count > STEP then STEP else v.count);
  }

  /** One more half period, whether the window ends inside it or after it. */
  lemma NextHalfPeriod(v: Voice, period: int, count: int, output: bool, vol: int)
    requires 0 < period && Pending(v, period, count, output, vol)
    ensures var vol' := vol + if !output then period else 0;
            if count + period > 0 then Settled(v, period, count + period, !output, vol')
            else Pending(v, period, count + period, !output, vol')
  {
    var n := if count + period > 0 then -count else period;
    RunToEvent(Voice(period, Tone(!output)), period, n);
    RunSplit(v, period, STEP + count, n);
  }

  /** One STEP of a tone voice: two half periods per iteration. */
  method ToneStep(count0: int, period: int, output0: bool)
    returns (count: int, output: bool, vol: int)
    requires 0 < count0 <= COUNT_MAX && 0 < period <= COUNT_MAX
    ensures Voice(count, Tone(output)) == Run(Voice(count0, Tone(output0)), period, STEP)
    ensures vol == HighTime(Voice(count0, Tone(output0)), period, STEP)
  {
    hide Run, HighTime;
    ghost var v := Voice(count0, Tone(output0));
    FirstHalfPeriod(v, period, output0);
    count, output, vol := count0, output0, 0;
    if output { vol := vol + count; }
    count := count - STEP;
    while count <= 0
      invariant if count > 0 then Settled(v, period, count, output, vol) else Pending(v, period, count, output, vol)
      decreases -count
    {
      NextHalfPeriod(v, period, count, output, vol);
      HighTimeBounds(v, period, STEP + count);
      assert InInt32(vol + period) && InInt32(count + period);
      count := count + period;
      if count > 0 {
        output := !output;
        if output { vol := vol + period; }
        break;
      }
      NextHalfPeriod(v, period, count, !output, vol + if !output then period else 0);
      assert InInt32(vol + period) && InInt32(count + period);
      count := count + period;
      vol := vol + period;
    }
    if output { vol := vol - count; }
  }

  ghost predicate NoiseAt(v: Voice, period: int, t: nat, w: Voice, vol: int) {
    Run(v, period, t) == w && HighTime(v, period, t) == vol
  }

  lemma NextNoiseEvent(v: Voice, period: int, t: nat, w: Voice, vol: int, n: nat)
    requires NoiseAt(v, period, t, w, vol) && 0 < w.count && n <= w.count
    ensures NoiseAt(v, period, t + n, if n < w.count then w.(count := w.count - n) else Voice(period, Event(w.source)),
                    vol + if High(w.source) then n else 0)
  {
    RunSplit(v, period, t, n);
    RunToEvent(w, period, n);
  }

  /** One STEP of the noise voice: from event to event. */
  method NoiseStep(count0: int, period: int, rng0: bv32, feedback: bv32, output0: bool)
    returns (count: int, rng: bv32, output: bool, vol: int)
    requires 0 < count0 <= COUNT_MAX && 0 < period <= COUNT_MAX
    requires output0 == LowBit(rng0)
    ensures Voice(count, Noise(rng, feedback)) == Run(Voice(count0, Noise(rng0, feedback)), period, STEP)
    ensures output == LowBit(rng)
    ensures vol == HighTime(Voice(count0, Noise(rng0, feedback)), period, STEP)
  {
    ghost var v := Voice(count0, Noise(rng0, feedback));
    assert NoiseAt(v, period, 0, v, 0);
    hide Shift, LowBit, Run, HighTime;
    count, rng, output, vol := count0, rng0, output0, 0;
    var left := STEP;
    while true
      invariant 0 < left <= STEP
      invariant 0 < count <= COUNT_MAX
      invariant output == LowBit(rng)
      invariant NoiseAt(v, period, STEP - left, Voice(count, Noise(rng, feedback)), vol)
      decreases left
    {
      var nextevent := if count < left then count else left;
      NextNoiseEvent(v, period, STEP - left, Voice(count, Noise(rng, feedback)), vol, nextevent);
      HighTimeBounds(v, period, STEP - left);
      if output { vol := vol + count; }
      assert InInt32(vol);
      count := count - nextevent;
      if count <= 0 {
        rng := Shift(rng, feedback);
        output := LowBit(rng);
        count := count + period;
        if output { vol := vol + period; }
      }
      assert InInt32(vol);
      if output { vol := vol - count; }
      left := left - nextevent;
      if left <= 0 { break; }
    }
  }
}
