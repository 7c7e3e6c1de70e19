/** Where the level of an operator of Envelope stands after any number of ticks. */
module EnvelopeLevels {
  import MachineWords
  import opened EnvelopeTables
  import opened Envelope

  /** What a rate adds in one tick. */
  function Gain(c: nat, sh: int, sel: int): (g: int)
    requires 0 <= sh <= 11 && 0 <= sel <= 18 * RATE_STEPS
    ensures g >= 0
  {
    IncrementInRange(c, sh, sel);
    if Due(c, sh) then Increment(c, sh, sel) else 0
  }

  /** What a rate adds to the attenuation in n ticks after counter value `cnt`, before any limit. */
  function Gains(cnt: nat, sh: int, sel: int, n: nat): int
    requires 0 <= sh <= 11 && 0 <= sel <= 18 * RATE_STEPS
  {
    if n == 0 then 0 else Gains(cnt, sh, sel, n - 1) + Gain(Counter(cnt + n), sh, sel)
  }

  // ------------------------------------------------------------------ turns of a row

  /** The increments of the first q turns of a row. */
  function TurnSum(sel: int, q: nat): int
    requires 0 <= sel <= 18 * RATE_STEPS
  {
    if q == 0 then 0 else TurnSum(sel, q - 1) + EgInc(sel + q % 8)
  }

  lemma NextTurn(sel: int, q: nat)
    requires 0 <= sel <= 18 * RATE_STEPS
    ensures TurnSum(sel, q + 1) == TurnSum(sel, q) + EgInc(sel + (q + 1) % 8)
  {
    hide EgInc;
  }

  lemma FirstEight(sel: int)
    requires 0 <= sel <= 18 * RATE_STEPS
    ensures TurnSum(sel, 8) == RowSum(sel)
  {
    hide EgInc, TurnSum;
    assert TurnSum(sel, 0) == 0 by { NoTurn(sel); }
    NextTurn(sel, 0);
    NextTurn(sel, 1);
    NextTurn(sel, 2);
    NextTurn(sel, 3);
    NextTurn(sel, 4);
    NextTurn(sel, 5);
    NextTurn(sel, 6);
    NextTurn(sel, 7);
  }

  lemma NoTurn(sel: int)
    requires 0 <= sel <= 18 * RATE_STEPS
    ensures TurnSum(sel, 0) == 0
  {
  }

  /** Any eight turns in a row add up to the whole row, wherever they start. */
  lemma {:induction false} EightTurns(sel: int, q: nat)
    requires 0 <= sel <= 18 * RATE_STEPS
    ensures TurnSum(sel, q + 8) == TurnSum(sel, q) + RowSum(sel)
  {
    hide EgInc, TurnSum, RowSum;
    if q == 0 {
      NoTurn(sel);
      FirstEight(sel);
    } else {
      EightTurns(sel, q - 1);
      NextTurn(sel, q - 1);
      NextTurn(sel, q + 7);
      assert (q + 8) % 8 == q % 8;
    }
  }

  lemma {:induction false} ManyEights(sel: int, q: nat, m: nat)
    requires 0 <= sel <= 18 * RATE_STEPS
    ensures TurnSum(sel, q + 8 * m) == TurnSum(sel, q) + RowSum(sel) * m
  {
    hide *;
    if m == 0 {
      NoneAtAll(RowSum(sel), m);
    } else {
      ManyEights(sel, q, m - 1);
      EightTurns(sel, q + 8 * (m - 1));
      OneMore(RowSum(sel), m);
    }
  }

  lemma NoneAtAll(a: int, m: int)
    requires m == 0
    ensures a * m == 0
  {
  }

  lemma OneMore(a: int, m: int)
    ensures a * m == a * (m - 1) + a
  {
  }

  // ----------------------------------------------------------------- gains are turns

  lemma NextGain(cnt: nat, sh: int, sel: int, n: nat)
    requires 0 <= sh <= 11 && 0 <= sel <= 18 * RATE_STEPS && n > 0
    ensures Gains(cnt, sh, sel, n) == Gains(cnt, sh, sel, n - 1) + Gain(Counter(cnt + n), sh, sel)
  {
    hide Gain, Counter;
  }

  lemma NoGain(cnt: nat, sh: int, sel: int)
    requires 0 <= sh <= 11 && 0 <= sel <= 18 * RATE_STEPS
    ensures Gains(cnt, sh, sel, 0) == 0
  {
  }

  lemma GainIsTurn(c: nat, sh: int, sel: int)
    requires 0 <= sh <= 11 && 0 <= sel <= 18 * RATE_STEPS
    ensures Gain(Counter(c), sh, sel) == if Due(c, sh) then EgInc(sel + Quotient(c, sh) % 8) else 0
  {
    WrapInvisible(c, sh);
    hide EgInc, Pow2;
  }

  /** One tick is one turn exactly when the rate comes due. */
  lemma GainStep(cnt: nat, sh: int, sel: int, n: nat)
    requires 0 <= sh <= 11 && 0 <= sel <= 18 * RATE_STEPS && n > 0
    ensures Gains(cnt, sh, sel, n) - Gains(cnt, sh, sel, n - 1)
         == TurnSum(sel, Quotient(cnt + n, sh)) - TurnSum(sel, Quotient(cnt + n - 1, sh))
  {
    hide *;
    NextGain(cnt, sh, sel, n);
    GainIsTurn(cnt + n, sh, sel);
    NextQuotient(cnt + n - 1, sh);
    NextTurn(sel, Quotient(cnt + n - 1, sh));
  }

  lemma {:induction false} GainsAreTurns(cnt: nat, sh: int, sel: int, n: nat)
    requires 0 <= sh <= 11 && 0 <= sel <= 18 * RATE_STEPS
    ensures Gains(cnt, sh, sel, n) == TurnSum(sel, Quotient(cnt + n, sh)) - TurnSum(sel, Quotient(cnt, sh))
  {
    hide *;
    if n == 0 {
      NoGain(cnt, sh, sel);
    } else {
      GainsAreTurns(cnt, sh, sel, n - 1);
      GainStep(cnt, sh, sel, n);
    }
  }

  lemma WholeCycle(cnt: nat, sh: int)
    requires 0 <= sh <= 11
    ensures Quotient(cnt + 0x4000, sh) == Quotient(cnt, sh) + 8 * Pow2(11 - sh)
  {
    CycleLength(sh);
    var p, m := Pow2(sh), 8 * Pow2(11 - sh);
    hide Pow2;
    assert p * (cnt / p + m) == p * (cnt / p) + p * m;
    MachineWords.Remainder(cnt + 0x4000, cnt / p + m, p, cnt % p);
  }

  lemma CycleLength(sh: int)
    requires 0 <= sh <= 11
    ensures Pow2(sh) * (8 * Pow2(11 - sh)) == 0x4000
  {
    assert sh in {0, 1, 2, 3, 4, 5, 6, 7, 8, 9, 10, 11};
  }

  lemma CycleGains(cnt: nat, sh: int, sel: int)
    requires 0 <= sh <= 11 && 0 <= sel <= 18 * RATE_STEPS
    ensures Gains(cnt, sh, sel, 0x4000) == RowSum(sel) * Pow2(11 - sh)
  {
    hide *;
    GainsAreTurns(cnt, sh, sel, 0x4000);
    WholeCycle(cnt, sh);
    ManyEights(sel, Quotient(cnt, sh), Pow2(11 - sh));
  }

  /** In 0x4000 ticks a rate adds exactly its speed, wherever the counter stands: 0 below rate 34, then in proportion to
      4, 5, 6 and 7 and twice as much every four rates (see EnvelopeTables). */
  lemma GainsInCycle(cnt: nat, rate: int)
    requires 0 <= rate < 128
    ensures 0 <= EgRateSelect2612(rate) <= 18 * RATE_STEPS
    ensures Gains(cnt, EgRateShift(rate), EgRateSelect2612(rate), 0x4000) == Speed(rate)
  {
    LiveRates(rate);
    CycleGains(cnt, EgRateShift(rate), EgRateSelect2612(rate));
    hide EgRateSelect2612, EgRateShift, Gains, RowSum, Pow2, EgInc;
  }

  // ------------------------------------------------------------------------- levels

  lemma {:induction false} GainsNeverFall(cnt: nat, sh: int, sel: int, n: nat)
    requires 0 <= sh <= 11 && 0 <= sel <= 18 * RATE_STEPS
    ensures Gains(cnt, sh, sel, n) >= 0 && (n > 0 ==> Gains(cnt, sh, sel, n) >= Gains(cnt, sh, sel, n - 1))
  {
    hide *;
    if n == 0 {
      NoGain(cnt, sh, sel);
    } else {
      GainsNeverFall(cnt, sh, sel, n - 1);
      NextGain(cnt, sh, sel, n);
    }
  }

  function Capped(level: int): int { if level > 1023 then 1023 else level }

  lemma SustainTick(u: Slot, c: nat)
    requires CachesInRange(u) && SsgOff(u) && LevelOk(u) && u.state == Sustain
    ensures var t := Advance(u, c);
            && t.state == Sustain && LevelOk(t)
            && t.volume == Capped(u.volume + Gain(c, u.shD2r, u.selD2r))
  {
    IncrementInRange(c, u.shD2r, u.selD2r);
    hide Increment, Due;
  }

  lemma SustainNext(u: Slot, c: nat, level: int, gains: int)
    requires CachesInRange(u) && SsgOff(u) && LevelOk(u) && u.state == Sustain && u.volume == Capped(level + gains)
    ensures 0 <= u.shD2r <= 11 && 0 <= u.selD2r <= 18 * RATE_STEPS
    ensures var t := Advance(u, c);
            t.state == Sustain && LevelOk(t) && t.volume == Capped(level + (gains + Gain(c, u.shD2r, u.selD2r)))
  {
    hide *;
    InBounds(u);
    SustainTick(u, c);
    NextLevel(level, gains, Gain(c, u.shD2r, u.selD2r));
  }

  /** The exact level in sustain: what its rate adds, down to silence and no further; sustain is never left by
      itself. */
  lemma {:induction false} SustainLevel(s: Slot, cnt: nat, n: nat)
    requires CachesInRange(s) && SsgOff(s) && LevelOk(s) && s.state == Sustain
    ensures 0 <= s.shD2r <= 11 && 0 <= s.selD2r <= 18 * RATE_STEPS
    ensures var t := Ticks(s, cnt, n);
            t.state == Sustain && LevelOk(t) && t.volume == Capped(s.volume + Gains(cnt, s.shD2r, s.selD2r, n))
  {
    hide *;
    InBounds(s);
    if n == 0 {
      NoTick(s, cnt);
      NoGain(cnt, s.shD2r, s.selD2r);
      WithinCap(s);
    } else {
      SustainLevel(s, cnt, n - 1);
      var u, c := LastTick(s, cnt, n);
      NextGain(cnt, s.shD2r, s.selD2r, n);
      SustainNext(u, c, s.volume, Gains(cnt, s.shD2r, s.selD2r, n - 1));
    }
  }

  lemma InBounds(s: Slot)
    requires CachesInRange(s)
    ensures 0 <= s.shD1r <= 11 && 0 <= s.selD1r <= 18 * RATE_STEPS
    ensures 0 <= s.shD2r <= 11 && 0 <= s.selD2r <= 18 * RATE_STEPS
    ensures 0 <= s.shRr <= 11 && 0 <= s.selRr <= 18 * RATE_STEPS
  {
  }

  lemma WithinCap(s: Slot)
    requires LevelOk(s)
    ensures Capped(s.volume + 0) == s.volume
  {
  }

  lemma NextLevel(level: int, gains: int, gain: int)
    requires gain >= 0
    ensures Capped(Capped(level + gains) + gain) == Capped(level + (gains + gain))
  {
  }

  ghost predicate Released(s: Slot) { s.state == Release || s.state == Off }

  lemma ReleaseTickExactly(u: Slot, c: nat)
    requires CachesInRange(u) && SsgOff(u) && LevelOk(u) && Released(u)
    ensures var t := Advance(u, c);
            && Released(t) && LevelOk(t)
            && t.volume == Capped(u.volume + Gain(c, u.shRr, u.selRr))
  {
    IncrementInRange(c, u.shRr, u.selRr);
    hide Increment, Due;
  }

  lemma ReleaseBegins(s: Slot, cnt: nat)
    requires CachesInRange(s) && SsgOff(s) && LevelOk(s) && s.state == Release
    ensures Ticks(s, cnt, 0) == s && Released(s) && s.volume == Capped(s.volume + Gains(cnt, s.shRr, s.selRr, 0))
  {
    NoTick(s, cnt);
    NoGain(cnt, s.shRr, s.selRr);
    WithinCap(s);
  }

  lemma ReleaseNext(u: Slot, c: nat, level: int, gains: int)
    requires CachesInRange(u) && SsgOff(u) && LevelOk(u) && Released(u) && u.volume == Capped(level + gains)
    ensures 0 <= u.shRr <= 11 && 0 <= u.selRr <= 18 * RATE_STEPS
    ensures var t := Advance(u, c);
            Released(t) && LevelOk(t) && t.volume == Capped(level + (gains + Gain(c, u.shRr, u.selRr)))
  {
    hide *;
    InBounds(u);
    ReleaseTickExactly(u, c);
    NextLevel(level, gains, Gain(c, u.shRr, u.selRr));
  }

  /** The exact level after a key release. */
  lemma {:induction false} ReleaseLevel(s: Slot, cnt: nat, n: nat)
    requires CachesInRange(s) && SsgOff(s) && LevelOk(s) && s.state == Release
    ensures 0 <= s.shRr <= 11 && 0 <= s.selRr <= 18 * RATE_STEPS
    ensures var t := Ticks(s, cnt, n);
            && Released(t) && LevelOk(t)
            && t.volume == Capped(s.volume + Gains(cnt, s.shRr, s.selRr, n))
  {
    hide *;
    InBounds(s);
    if n == 0 {
      ReleaseBegins(s, cnt);
    } else {
      ReleaseLevel(s, cnt, n - 1);
      var u, c := LastTick(s, cnt, n);
      NextGain(cnt, s.shRr, s.selRr, n);
      ReleaseNext(u, c, s.volume, Gains(cnt, s.shRr, s.selRr, n - 1));
    }
  }

  lemma DecayTickExactly(u: Slot, c: nat)
    requires CachesInRange(u) && SsgOff(u) && LevelOk(u) && u.state == Decay
    ensures var t, v := Advance(u, c), u.volume + Gain(c, u.shD1r, u.selD1r);
            && LevelOk(t) && (t.state == if v < u.sl then Decay else Sustain)
            && t.volume == if v < u.sl then v else u.sl
  {
    IncrementInRange(c, u.shD1r, u.selD1r);
    hide Increment, Due;
  }

  /** The exact level in decay, and the exact tick at which it meets the sustain level and turns into sustain there. */
  lemma {:induction false} DecayLevel(s: Slot, cnt: nat, n: nat)
    requires CachesInRange(s) && SsgOff(s) && LevelOk(s) && s.state == Decay
    ensures 0 <= s.shD1r <= 11 && 0 <= s.selD1r <= 18 * RATE_STEPS
    ensures n > 0 ==> (Ticks(s, cnt, n).state == Decay <==> s.volume + Gains(cnt, s.shD1r, s.selD1r, n) < s.sl)
    ensures Ticks(s, cnt, n).state == Decay ==>
              LevelOk(Ticks(s, cnt, n)) && Ticks(s, cnt, n).volume == s.volume + Gains(cnt, s.shD1r, s.selD1r, n)
    ensures n > 0 && Ticks(s, cnt, n - 1).state == Decay && Ticks(s, cnt, n).state != Decay ==>
              Ticks(s, cnt, n).state == Sustain && Ticks(s, cnt, n).volume == s.sl
    ensures Ticks(s, cnt, n).state == Decay || Ticks(s, cnt, n).state == Sustain
  {
    hide *;
    InBounds(s);
    NoTick(s, cnt);
    if n == 0 {
      NoGain(cnt, s.shD1r, s.selD1r);
    } else {
      DecayLevel(s, cnt, n - 1);
      var u, c := LastTick(s, cnt, n);
      NextGain(cnt, s.shD1r, s.selD1r, n);
      LaterTick(u, c);
      if u.state == Decay { DecayTickExactly(u, c); }
    }
  }

  /** What is left of a distance from which sixteenths are taken. */
  function Leftover(volume: int, inc: int): int { (volume + 1) * (16 - inc) / 16 }

  lemma AttackTick(u: Slot, c: nat)
    requires CachesInRange(u) && SsgOff(u) && LevelOk(u) && u.state == Attack
    ensures var t, v := Advance(u, c), u.volume + -(u.volume + 1) * Increment(c, u.shAr, u.selAr) / 16;
            && (!Due(c, u.shAr) ==> t.state == Attack && t.volume == u.volume)
            && (Due(c, u.shAr) ==> t.state == if v <= 0 then Decay else Attack)
            && (Due(c, u.shAr) ==> t.volume == if v <= 0 then 0 else v)
  {
    hide Increment, Due;
  }

  /** One tick of an attack: of the distance to one step above full volume sixteenths are left over, as many as the
      increment falls short of sixteen; the attack is over when at most one step is left. */
  lemma AttackTickExactly(u: Slot, c: nat)
    requires CachesInRange(u) && SsgOff(u) && LevelOk(u) && u.state == Attack
    ensures var t, left := Advance(u, c), Leftover(u.volume, Increment(c, u.shAr, u.selAr));
            && (!Due(c, u.shAr) ==> t.state == Attack && t.volume == u.volume)
            && (Due(c, u.shAr) ==> t.state == if left <= 1 then Decay else Attack)
            && (Due(c, u.shAr) ==> t.volume == if left <= 1 then 0 else left - 1)
  {
    AttackFacts(u, c);
    hide *;
    AttackTick(u, c);
    LeftoverIs(u.volume, Increment(c, u.shAr, u.selAr));
  }

  lemma AttackFacts(u: Slot, c: nat)
    requires CachesInRange(u) && LevelOk(u)
    ensures 0 <= u.shAr <= 11 && 0 <= u.selAr <= 18 * RATE_STEPS
    ensures 0 <= u.volume && 0 <= Increment(c, u.shAr, u.selAr) <= 16
  {
    IncrementInRange(c, u.shAr, u.selAr);
    hide Increment;
  }

  lemma LeftoverIs(volume: int, inc: int)
    requires 0 <= volume && 0 <= inc <= 16
    ensures volume + -(volume + 1) * inc / 16 == Leftover(volume, inc) - 1
  {
    AttackArithmetic(volume, inc);
  }
}
