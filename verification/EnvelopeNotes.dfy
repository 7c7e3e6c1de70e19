/** What the writes of a program do to an operator of Envelope: what each register sets, what a key press and a key
    release start, and how fast the level then moves. */
module EnvelopeNotes {
  import MachineWords
  import opened EnvelopeTables
  import opened Envelope
  import opened EnvelopeLevels

  // ------------------------------------------------------------------------ runs

  lemma RunOne(s: Slot, op: Op)
    requires SlotOk(s) && op.Allowed()
    ensures Inside(s, op) && Run(s, [op]) == At(Apply(s, op)) && SlotOk(Apply(s, op))
  {
    StepKeepsOk(s, op);
    hide SlotOk, Inside, Apply, Op.Allowed;
    assert [op][1..] == [];
    assert Run(Apply(s, op), []) == At(Apply(s, op));
  }

  lemma {:induction false} RunAppend(s: Slot, xs: seq<Op>, ys: seq<Op>)
    requires SlotOk(s) && AllAllowed(xs) && AllAllowed(ys)
    ensures AllAllowed(xs + ys) && Run(s, xs).At? && SlotOk(Run(s, xs).slot)
    ensures Run(s, xs + ys) == Run(Run(s, xs).slot, ys)
    decreases |xs|
  {
    hide SlotOk, Inside, Apply, Op.Allowed;
    if xs == [] {
      assert [] + ys == ys;
    } else {
      StepKeepsOk(s, xs[0]);
      assert (xs + ys)[1..] == xs[1..] + ys;
      RunAppend(Apply(s, xs[0]), xs[1..], ys);
    }
  }

  /** n ticks after counter value `cnt`. */
  function TickOps(cnt: nat, n: nat): (ops: seq<Op>)
    ensures |ops| == n && AllAllowed(ops)
  {
    if n == 0 then [] else TickOps(cnt, n - 1) + [Tick(Counter(cnt + n))]
  }

  lemma {:induction false} TicksAreRun(s: Slot, cnt: nat, n: nat)
    requires SlotOk(s)
    ensures CachesInRange(s) && SsgOff(s) && Run(s, TickOps(cnt, n)) == At(Ticks(s, cnt, n)) && SlotOk(Ticks(s, cnt, n))
  {
    OkCaches(s);
    hide *;
    if n == 0 {
      NoOps(s, cnt);
      NoTick(s, cnt);
    } else {
      TicksAreRun(s, cnt, n - 1);
      var u, c := LastTick(s, cnt, n);
      LastOp(cnt, n);
      RunAppend(s, TickOps(cnt, n - 1), [Tick(c)]);
      OneTick(u, c);
    }
  }

  lemma NoOps(s: Slot, cnt: nat)
    ensures Run(s, TickOps(cnt, 0)) == At(s)
  {
  }

  lemma LastOp(cnt: nat, n: nat)
    requires n > 0
    ensures TickOps(cnt, n) == TickOps(cnt, n - 1) + [Tick(Counter(cnt + n))] && AllAllowed([Tick(Counter(cnt + n))])
  {
    hide Counter;
  }

  lemma OneTick(u: Slot, c: nat)
    requires SlotOk(u) && CachesInRange(u) && SsgOff(u)
    ensures AllAllowed([Tick(c)]) && Run(u, [Tick(c)]) == At(Advance(u, c)) && SlotOk(Advance(u, c))
  {
    RunOne(u, Tick(c));
    hide SlotOk, CachesInRange, SsgOff, Advance, Run;
  }

  /** The slot that a run from a good slot ends at. */
  ghost function After(s: Slot, ops: seq<Op>): (t: Slot)
    requires SlotOk(s) && AllAllowed(ops)
    ensures Run(s, ops) == At(t)
  {
    RunKeepsOk(s, ops);
    Run(s, ops).slot
  }

  // -------------------------------------------------------------------- registers

  /** A write to the attack register: 0 stands for no attack at all, the other 31 values for the rates 34 to 94. */
  lemma ArKsrWrite(s: Slot, v: int)
    requires SlotOk(s) && Byte(v)
    ensures var t := After(s, [WriteArKsr(v)]);
            && t.ar == (if v % 0x20 == 0 then 0 else 32 + v % 0x20 * 2) && t.KSR == 3 - v / 0x40
            && t == s.(ar := t.ar, KSR := t.KSR, shAr := t.shAr, selAr := t.selAr)
  {
    RunOne(s, WriteArKsr(v));
    hide SlotOk, AttackShift, AttackSelect, Run;
  }

  lemma DrWrite(s: Slot, v: int)
    requires SlotOk(s) && Byte(v)
    ensures var t := After(s, [WriteDr(v)]);
            && t.d1r == (if v % 0x20 == 0 then 0 else 32 + v % 0x20 * 2)
            && t == s.(d1r := t.d1r, shD1r := t.shD1r, selD1r := t.selD1r)
  {
    RunOne(s, WriteDr(v));
    hide SlotOk, EgRateShift, EgRateSelect2612, Run;
  }

  lemma SrWrite(s: Slot, v: int)
    requires SlotOk(s) && Byte(v)
    ensures var t := After(s, [WriteSr(v)]);
            && t.d2r == (if v % 0x20 == 0 then 0 else 32 + v % 0x20 * 2)
            && t == s.(d2r := t.d2r, shD2r := t.shD2r, selD2r := t.selD2r)
  {
    RunOne(s, WriteSr(v));
    hide SlotOk, EgRateShift, EgRateSelect2612, Run;
  }

  /** The release rate has four bits, and the sustain level steps of 32, the last of which is 31 steps down. */
  lemma SlRrWrite(s: Slot, v: int)
    requires SlotOk(s) && Byte(v)
    ensures var t := After(s, [WriteSlRr(v)]);
            && t.rr == 34 + v % 0x10 * 4 && t.sl == (if v / 0x10 == 0xf then 31 else v / 0x10) * 32
            && t == s.(sl := t.sl, rr := t.rr, shRr := t.shRr, selRr := t.selRr)
  {
    RunOne(s, WriteSlRr(v));
    hide SlotOk, EgRateShift, EgRateSelect2612, Run;
  }

  lemma TlWrite(s: Slot, v: int)
    requires SlotOk(s) && Byte(v)
    ensures After(s, [WriteTl(v)]) == s.(tl := v % 0x80 * 8)
  {
    RunOne(s, WriteTl(v));
    hide SlotOk, Run;
  }

  /** The SSG-EG register, which stays switched off here. */
  lemma SsgWrite(s: Slot, v: int)
    requires SlotOk(s) && Byte(v) && v % 0x10 < 8
    ensures After(s, [WriteSsg(v)]) == s.(ssg := v % 8, ssgn := if v % 8 >= 4 then 2 else 0)
  {
    RunOne(s, WriteSsg(v));
    SsgFields(v);
    hide SlotOk, Run;
  }

  lemma SsgFields(v: int)
    requires Byte(v) && v % 0x10 < 8
    ensures v % 16 == v % 8 && v / 4 % 2 * 2 == if v % 8 >= 4 then 2 else 0
  {
    var r := v % 16;
    MachineWords.Remainder(v, 2 * (v / 16), 8, r);
    MachineWords.Remainder(v, 4 * (v / 16) + r / 4, 4, r % 4);
    MachineWords.Remainder(v / 4, 2 * (v / 16) + r / 4 / 2, 2, r / 4 % 2);
  }

  /** Reset leaves an operator silent at full attenuation, without attack and decay, with the slowest release. */
  lemma ResetIsSilent(s: Slot)
    requires RatesInRange(s)
    ensures var t := Reset(s);
            && t.state == Off && t.volume == 1023 && t.tl == 0 && t.sl == 0 && t.ssg == 0
            && t.ar == t.d1r == t.d2r == 0 && t.rr == 34 && t.KSR == 3 && t.ksr == s.ksr && t.key == s.key
  {
    hide EgRateShift, EgRateSelect2612, AttackShift, AttackSelect;
  }

  /** Key scaling adds the note code, halved up to three times as the attack register says. */
  lemma KeyScaling(s: Slot, v: int, kcode: int)
    requires SlotOk(s) && Byte(v) && 0 <= kcode < 32
    ensures After(s, [WriteArKsr(v), RefreshKey(kcode)]).ksr
         == kcode / (if v / 0x40 == 3 then 1 else if v / 0x40 == 2 then 2 else if v / 0x40 == 1 then 4 else 8)
  {
    RunOne(s, WriteArKsr(v));
    var t := Apply(s, WriteArKsr(v));
    assert t.KSR == 3 - v / 0x40;
    RunOne(t, RefreshKey(kcode));
    TwoOps(s, WriteArKsr(v), RefreshKey(kcode));
    RefreshSets(t, kcode);
    hide SlotOk, Run, SetArKsr, Refresh;
  }

  lemma TwoOps(s: Slot, a: Op, b: Op)
    requires SlotOk(s) && a.Allowed() && b.Allowed()
    ensures Inside(s, a) && SlotOk(Apply(s, a)) && AllAllowed([a, b]) && Run(s, [a, b]) == Run(Apply(s, a), [b])
  {
    StepKeepsOk(s, a);
    hide SlotOk, Inside, Apply, Op.Allowed;
    assert [a, b][1..] == [b];
  }

  lemma RefreshSets(s: Slot, kcode: int)
    requires RatesInRange(s) && 0 <= kcode < 32 && 0 <= s.KSR <= 3
    ensures Refresh(s, kcode).ksr
         == kcode / (if s.KSR == 0 then 1 else if s.KSR == 1 then 2 else if s.KSR == 2 then 4 else 8)
  {
    hide EgRateShift, EgRateSelect2612, AttackShift, AttackSelect;
  }

  // -------------------------------------------------------------------------- keys

  /** A key press starts the attack from wherever the level is, or skips it where the rate is beyond the table;
      while the key is down it does nothing. */
  lemma KeyPress(s: Slot)
    requires SlotOk(s)
    ensures var t := After(s, [On]);
            && t.key && SameRates(s, t) && (s.key ==> t == s)
            && (!s.key && s.ar + s.ksr < 94 ==> t.state == Attack && t.volume == s.volume)
            && (!s.key && s.ar + s.ksr >= 94 ==> t.state == Decay && t.volume == 0)
  {
    RunOne(s, On);
    OnOf(s);
    hide *;
  }

  lemma OnOf(s: Slot)
    ensures var t := KeyOn(s);
            && t.key && SameRates(s, t) && (s.key ==> t == s)
            && (!s.key && s.ar + s.ksr < 94 ==> t.state == Attack && t.volume == s.volume)
            && (!s.key && s.ar + s.ksr >= 94 ==> t.state == Decay && t.volume == 0)
  {
  }

  /** A key release lets a sounding operator fall from wherever its level is; with the key up it does nothing. */
  lemma KeyRelease(s: Slot)
    requires SlotOk(s)
    ensures var t := After(s, [OffKey]);
            && !t.key && SameRates(s, t) && t.volume == s.volume && (!s.key ==> t == s)
            && (s.key && s.state != Off ==> t.state == Release) && (s.state == Off ==> t.state == Off)
  {
    RunOne(s, OffKey);
    OffKeyOf(s);
    hide *;
  }

  lemma OffKeyOf(s: Slot)
    ensures var t := KeyOff(s);
            && !t.key && SameRates(s, t) && t.volume == s.volume && (!s.key ==> t == s)
            && (s.key && s.state != Off ==> t.state == Release) && (s.state == Off ==> t.state == Off)
  {
  }

  /** A pulse of the CSM timer presses and releases the key of an operator that is not keyed on. */
  lemma CsmIsPressAndRelease(s: Slot)
    requires SlotOk(s)
    ensures After(s, [Csm]) == if s.key then s else After(s, [On, OffKey])
  {
    hide SlotOk, Run, KeyOn, KeyOff, Inside;
    RunOne(s, Csm);
    RunOne(s, On);
    TwoOps(s, On, OffKey);
    RunOne(Apply(s, On), OffKey);
  }

  /** From a key press with a nonzero attack rate below the end of the table: the level never rises until decay is
      reached at full volume, within 2048 * 2^shift ticks. */
  lemma PressedNoteAttacks(s: Slot, cnt: nat) returns (k: nat)
    requires SlotOk(s) && !s.key && s.ar != 0 && s.ar + s.ksr < 94
    ensures 0 <= s.shAr <= 11 && k <= 2 * 1024 * Pow2(s.shAr)
    ensures var t := After(s, [On] + TickOps(cnt, k)); t.state == Decay && t.volume == 0
    ensures forall n: nat :: var t := After(s, [On] + TickOps(cnt, n)); t.state == Attack ==> t.volume <= s.volume
  {
    KeyPress(s);
    RunOne(s, On);
    var p := After(s, [On]);
    PressedRates(s, p);
    hide *;
    k := AttackEnds(p, cnt);
    RunsOn(s, On, cnt, k);
    forall n: nat ensures var t := After(s, [On] + TickOps(cnt, n)); t.state == Attack ==> t.volume <= s.volume {
      RunsOn(s, On, cnt, n);
      AttackFalls(p, cnt, n);
    }
  }

  lemma PressedRates(s: Slot, p: Slot)
    requires SlotOk(s) && SlotOk(p) && SameRates(s, p)
    ensures CachesInRange(p) && SsgOff(p) && LevelOk(p) && p.ar == s.ar && p.shAr == s.shAr && p.shRr == s.shRr
    ensures 0 <= s.shAr <= 11 && 0 <= s.shRr <= 11 && MIN_ATT_INDEX == 0 && MAX_ATT_INDEX == 1023
  {
    OkCaches(p);
    hide SlotOk;
  }

  lemma RunsOn(s: Slot, op: Op, cnt: nat, n: nat)
    requires SlotOk(s) && op.Allowed()
    ensures AllAllowed([op]) && AllAllowed([op] + TickOps(cnt, n)) && SlotOk(After(s, [op]))
    ensures CachesInRange(After(s, [op])) && SsgOff(After(s, [op]))
    ensures After(s, [op] + TickOps(cnt, n)) == Ticks(After(s, [op]), cnt, n)
  {
    RunKeepsOk(s, [op]);
    RunAppend(s, [op], TickOps(cnt, n));
    TicksAreRun(After(s, [op]), cnt, n);
    hide SlotOk, CachesInRange, SsgOff, Ticks, Run, TickOps, Op.Allowed;
  }

  lemma AttackFalls(s: Slot, cnt: nat, n: nat)
    requires CachesInRange(s) && SsgOff(s) && LevelOk(s) && s.state == Attack
    ensures Ticks(s, cnt, n).state == Attack ==> Ticks(s, cnt, n).volume <= s.volume
  {
    assert 0 <= s.shAr <= 11 && 0 <= s.selAr <= 18 * RATE_STEPS;
    AttackProgress(s, cnt, n);
    hide *;
  }

  lemma ReleaseStarts(s: Slot)
    requires SlotOk(s) && s.key && s.state != Off
    ensures AllAllowed([OffKey]) && SlotOk(After(s, [OffKey])) && OffKey.Allowed()
    ensures CachesInRange(After(s, [OffKey])) && After(s, [OffKey]).state == Release
    ensures After(s, [OffKey]).shRr == s.shRr && 0 <= s.shRr <= 11 && MAX_ATT_INDEX == 1023
  {
    KeyRelease(s);
    RunKeepsOk(s, [OffKey]);
    PressedRates(s, After(s, [OffKey]));
    hide SlotOk, Run, CachesInRange;
  }

  /** From the release of a sounding key: silence within 2048 * 2^shift ticks. */
  lemma ReleasedNoteEnds(s: Slot, cnt: nat)
    requires SlotOk(s) && s.key && s.state != Off
    ensures 0 <= s.shRr <= 11 && AllAllowed([OffKey] + TickOps(cnt, 2 * 1024 * Pow2(s.shRr)))
    ensures var t := After(s, [OffKey] + TickOps(cnt, 2 * 1024 * Pow2(s.shRr))); t.state == Off && t.volume == 1023
  {
    hide *;
    ReleaseStarts(s);
    ReleaseEnds(After(s, [OffKey]), cnt);
    RunsOn(s, OffKey, cnt, 2 * 1024 * Pow2(s.shRr));
  }

  // ------------------------------------------------------------------------ speeds

  lemma AttackInCaches(s: Slot)
    requires SlotOk(s)
    ensures 0 <= s.ar + s.ksr < 128
    ensures s.ar + s.ksr < 94 ==> s.shAr == EgRateShift(s.ar + s.ksr) && s.selAr == EgRateSelect2612(s.ar + s.ksr)
    ensures s.ar + s.ksr >= 94 ==> s.shAr == 0 && s.selAr == 17 * RATE_STEPS
  {
    hide EgRateShift, EgRateSelect2612;
  }

  /** The increments of an attack are those of its rate (see AttackTickExactly for what they take away). */
  lemma AttackGains(s: Slot, cnt: nat)
    requires SlotOk(s) && s.ar + s.ksr < 94
    ensures 0 <= s.shAr <= 11 && 0 <= s.selAr <= 18 * RATE_STEPS && 0 <= s.ar + s.ksr < 128
    ensures Gains(cnt, s.shAr, s.selAr, 0x4000) == Speed(s.ar + s.ksr)
  {
    OkCaches(s);
    AttackInCaches(s);
    GainsInCycle(cnt, s.ar + s.ksr);
    hide SlotOk, Gains, EgRateShift, EgRateSelect2612, Speed;
  }

  lemma FastIncrement(c: nat)
    ensures Due(c, 0) && Increment(c, 0, 17 * RATE_STEPS) == 16
  {
    assert (17 * 8 + c / Pow2(0) % 8) / 8 == 17;
    assert c / Pow2(0) % 8 in {0, 1, 2, 3, 4, 5, 6, 7};
  }

  /** An attack whose rate gets beyond the table, by a change of key scaling, is over with the next tick. */
  lemma FastestAttack(s: Slot, cnt: nat)
    requires SlotOk(s) && CachesInRange(s) && SsgOff(s) && s.state == Attack && s.ar + s.ksr >= 94
    ensures Ticks(s, cnt, 1).state == Decay && Ticks(s, cnt, 1).volume == 0
  {
    hide *;
    OkCaches(s);
    AttackInCaches(s);
    NoTick(s, cnt);
    var u, c := LastTick(s, cnt, 1);
    FastIncrement(c);
    AttackTickExactly(u, c);
    NothingLeft(u.volume);
  }

  lemma NothingLeft(volume: int)
    ensures Leftover(volume, 16) == 0
  {
  }

  lemma RatesInCaches(s: Slot)
    requires SlotOk(s)
    ensures 0 <= s.d1r + s.ksr < 128 && 0 <= s.d2r + s.ksr < 128 && 0 <= s.rr + s.ksr < 128
    ensures s.shD1r == EgRateShift(s.d1r + s.ksr) && s.selD1r == EgRateSelect2612(s.d1r + s.ksr)
    ensures s.shD2r == EgRateShift(s.d2r + s.ksr) && s.selD2r == EgRateSelect2612(s.d2r + s.ksr)
    ensures s.shRr == EgRateShift(s.rr + s.ksr) && s.selRr == EgRateSelect2612(s.rr + s.ksr)
  {
    hide EgRateShift, EgRateSelect2612, AttackShift, AttackSelect;
  }

  /** A held note falls in 0x4000 ticks by the speed of its second decay rate under key scaling, down to silence. */
  lemma HeldNoteFalls(s: Slot, cnt: nat)
    requires SlotOk(s) && s.state == Sustain
    ensures 0 <= s.d2r + s.ksr < 128
    ensures var t := After(s, TickOps(cnt, 0x4000));
            t.state == Sustain && t.volume == Capped(s.volume + Speed(s.d2r + s.ksr))
  {
    hide *;
    OkCaches(s);
    RatesInCaches(s);
    TicksAreRun(s, cnt, 0x4000);
    SustainLevel(s, cnt, 0x4000);
    GainsInCycle(cnt, s.d2r + s.ksr);
  }

  /** A released one falls by that of its release rate. */
  lemma ReleasedNoteFalls(s: Slot, cnt: nat)
    requires SlotOk(s) && s.state == Release
    ensures 0 <= s.rr + s.ksr < 128
    ensures After(s, TickOps(cnt, 0x4000)).volume == Capped(s.volume + Speed(s.rr + s.ksr))
  {
    hide *;
    OkCaches(s);
    RatesInCaches(s);
    TicksAreRun(s, cnt, 0x4000);
    ReleaseLevel(s, cnt, 0x4000);
    GainsInCycle(cnt, s.rr + s.ksr);
  }

  /** In 0x4000 ticks the first decay has met the sustain level exactly when the speed of its rate makes up the
      distance. */
  lemma DecayingNoteFalls(s: Slot, cnt: nat)
    requires SlotOk(s) && s.state == Decay
    ensures 0 <= s.d1r + s.ksr < 128
    ensures var t, level := After(s, TickOps(cnt, 0x4000)), s.volume + Speed(s.d1r + s.ksr);
            && (t.state == Decay <==> level < s.sl) && (t.state == Sustain <==> level >= s.sl)
            && (level < s.sl ==> t.volume == level)
  {
    hide *;
    OkCaches(s);
    RatesInCaches(s);
    TicksAreRun(s, cnt, 0x4000);
    DecayLevel(s, cnt, 0x4000);
    GainsInCycle(cnt, s.d1r + s.ksr);
  }
}
