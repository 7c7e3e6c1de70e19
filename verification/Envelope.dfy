/** One operator's envelope on the YM2612 (fm.c), with SSG-EG switched off. */
module Envelope {
  import MachineWords
  import opened EnvelopeTables

  datatype State = Off | Release | Sustain | Decay | Attack

  /** The envelope part of an operator slot: its rate registers, key scaling, envelope state, and the
      shift and row offset cached for each of the four rates. */
  datatype Slot = Slot(
    KSR: int, ar: int, d1r: int, d2r: int, rr: int, ksr: int,
    state: State, tl: int, volume: int, sl: int, volOut: int,
    shAr: int, selAr: int, shD1r: int, selD1r: int, shD2r: int, selD2r: int, shRr: int, selRr: int,
    ssg: int, ssgn: int, key: bool)

  // ------------------------------------------------------------------ registers

  function RateRegister(v: int): int { if v % 32 == 0 then 0 else 32 + v % 32 * 2 }

  /** Attack is instantaneous from rate 94 up. */
  function AttackShift(rate: int): int
    requires 0 <= rate < 128
  {
    if rate < 32 + 62 then EgRateShift(rate) else 0
  }

  function AttackSelect(rate: int): int
    requires 0 <= rate < 128
  {
    if rate < 32 + 62 then EgRateSelect2612(rate) else ROW_OF_MAXIMAL_ATTACK * RATE_STEPS
  }

  predicate Byte(v: int) { 0 <= v < 0x100 }

  predicate RatesInRange(s: Slot) {
    0 <= s.ar <= 94 && 0 <= s.d1r <= 94 && 0 <= s.d2r <= 94 && 0 <= s.rr <= 94 && 0 <= s.ksr <= 31
  }

  function SetArKsr(s: Slot, v: int): Slot
    requires RatesInRange(s) && Byte(v)
  {
    var ar := RateRegister(v);
    s.(ar := ar, KSR := 3 - v / 64, shAr := AttackShift(ar + s.ksr), selAr := AttackSelect(ar + s.ksr))
  }

  function SetDr(s: Slot, v: int): Slot
    requires RatesInRange(s) && Byte(v)
  {
    var r := RateRegister(v);
    s.(d1r := r, shD1r := EgRateShift(r + s.ksr), selD1r := EgRateSelect2612(r + s.ksr))
  }

  function SetSr(s: Slot, v: int): Slot
    requires RatesInRange(s) && Byte(v)
  {
    var r := RateRegister(v);
    s.(d2r := r, shD2r := EgRateShift(r + s.ksr), selD2r := EgRateSelect2612(r + s.ksr))
  }

  function SetSlRr(s: Slot, v: int): Slot
    requires RatesInRange(s) && Byte(v)
  {
    var r := 34 + v % 16 * 4;
    s.(sl := SlTable(v / 16), rr := r, shRr := EgRateShift(r + s.ksr), selRr := EgRateSelect2612(r + s.ksr))
  }

  function SetTl(s: Slot, v: int): Slot
    requires Byte(v)
  {
    s.(tl := v % 128 * 8)
  }

  function SetSsg(s: Slot, v: int): Slot
    requires Byte(v)
  {
    s.(ssg := v % 16, ssgn := v / 4 % 2 * 2)
  }

  /** Key scaling follows the note: the cached rates are rebuilt when the scale changes. */
  function Refresh(s: Slot, kcode: int): Slot
    requires RatesInRange(s) && 0 <= kcode < 32 && 0 <= s.KSR <= 3
  {
    var ksr := kcode / if s.KSR == 0 then 1 else if s.KSR == 1 then 2 else if s.KSR == 2 then 4 else 8;
    if ksr == s.ksr then s else
    s.(ksr := ksr,
       shAr := AttackShift(s.ar + ksr), selAr := AttackSelect(s.ar + ksr),
       shD1r := EgRateShift(s.d1r + ksr), selD1r := EgRateSelect2612(s.d1r + ksr),
       shD2r := EgRateShift(s.d2r + ksr), selD2r := EgRateSelect2612(s.d2r + ksr),
       shRr := EgRateShift(s.rr + ksr), selRr := EgRateSelect2612(s.rr + ksr))
  }

  function KeyOn(s: Slot): Slot {
    if s.key then s
    else
      var t := s.(key := true, ssgn := s.ssg / 4 % 2 * 2);
      if t.ar + t.ksr < 32 + 62 then t.(state := Attack) else t.(volume := MIN_ATT_INDEX, state := Decay)
  }

  function KeyOff(s: Slot): Slot {
    if !s.key then s
    else if s.state == Off || s.state == Release then s.(key := false)
    else s.(key := false, state := Release)
  }

  /** CSM key control: a pulse on slots that are not already keyed on. */
  function CsmPulse(s: Slot): Slot {
    if s.key then s else KeyOff(KeyOn(s))
  }

  // -------------------------------------------------------------- one clock tick

  predicate Due(cnt: int, sh: int)
    requires 0 <= sh <= 11
  {
    cnt % Pow2(sh) == 0
  }

  /** The increment of a rate at counter value `cnt`. */
  function Increment(cnt: int, sh: int, sel: int): int
    requires 0 <= cnt && 0 <= sh <= 11 && 0 <= sel <= 18 * RATE_STEPS
  {
    EgInc(sel + cnt / Pow2(sh) % 8)
  }

  predicate CachesInRange(s: Slot) {
    && 0 <= s.shAr <= 11 && 0 <= s.selAr <= 18 * RATE_STEPS
    && 0 <= s.shD1r <= 11 && 0 <= s.selD1r <= 18 * RATE_STEPS
    && 0 <= s.shD2r <= 11 && 0 <= s.selD2r <= 18 * RATE_STEPS
    && 0 <= s.shRr <= 11 && 0 <= s.selRr <= 18 * RATE_STEPS
  }

  predicate SsgOff(s: Slot) { 0 <= s.ssg < 8 }

  /** Attack: an exponential approach to full volume, in the source's floor-shifted arithmetic. */
  function AttackStep(s: Slot, cnt: int): Slot
    requires CachesInRange(s) && 0 <= cnt
  {
    if !Due(cnt, s.shAr) then s
    else
      var v := s.volume + -(s.volume + 1) * Increment(cnt, s.shAr, s.selAr) / 16;
      if v <= MIN_ATT_INDEX then s.(volume := MIN_ATT_INDEX, state := Decay) else s.(volume := v)
  }

  function DecayStep(s: Slot, cnt: int): Slot
    requires CachesInRange(s) && 0 <= cnt
  {
    var v := s.volume + if Due(cnt, s.shD1r) then Increment(cnt, s.shD1r, s.selD1r) else 0;
    if v >= s.sl then s.(volume := s.sl, state := Sustain) else s.(volume := v)
  }

  function SustainStep(s: Slot, cnt: int): Slot
    requires CachesInRange(s) && 0 <= cnt
  {
    if !Due(cnt, s.shD2r) then s
    else
      var v := s.volume + Increment(cnt, s.shD2r, s.selD2r);
      s.(volume := if v >= MAX_ATT_INDEX then MAX_ATT_INDEX else v)
  }

  function ReleaseStep(s: Slot, cnt: int): Slot
    requires CachesInRange(s) && 0 <= cnt
  {
    if !Due(cnt, s.shRr) then s
    else
      var v := s.volume + Increment(cnt, s.shRr, s.selRr);
      if v >= MAX_ATT_INDEX then s.(volume := MAX_ATT_INDEX, state := Off) else s.(volume := v)
  }

  /** One envelope tick at counter value `cnt`. */
  function Advance(s: Slot, cnt: int): Slot
    requires CachesInRange(s) && SsgOff(s) && 0 <= cnt
  {
    var t := match s.state
      case Attack => AttackStep(s, cnt)
      case Decay => DecayStep(s, cnt)
      case Sustain => SustainStep(s, cnt)
      case Release => ReleaseStep(s, cnt)
      case Off => s;
    t.(volOut := t.volume + t.tl)
  }

  // ------------------------------------------------------------------- invariant

  ghost predicate RateRegistersOk(s: Slot) {
    && RatesInRange(s) && 0 <= s.KSR <= 3 && SsgOff(s)
    && (s.ar == 0 || s.ar >= 34) && (s.d1r == 0 || s.d1r >= 34) && (s.d2r == 0 || s.d2r >= 34) && s.rr >= 34
  }

  /** The cached shifts and offsets are those of the rate registers under the current key scaling. */
  ghost predicate CachesOk(s: Slot)
    requires RatesInRange(s)
  {
    && s.shAr == AttackShift(s.ar + s.ksr) && s.selAr == AttackSelect(s.ar + s.ksr)
    && s.shD1r == EgRateShift(s.d1r + s.ksr) && s.selD1r == EgRateSelect2612(s.d1r + s.ksr)
    && s.shD2r == EgRateShift(s.d2r + s.ksr) && s.selD2r == EgRateSelect2612(s.d2r + s.ksr)
    && s.shRr == EgRateShift(s.rr + s.ksr) && s.selRr == EgRateSelect2612(s.rr + s.ksr)
  }

  ghost predicate LevelOk(s: Slot) {
    0 <= s.volume <= MAX_ATT_INDEX && 0 <= s.sl <= 31 * 32 && (s.state == Off ==> s.volume == MAX_ATT_INDEX)
  }

  /** What every reachable slot satisfies. */
  ghost predicate SlotOk(s: Slot) {
    RateRegistersOk(s) && CachesOk(s) && LevelOk(s)
  }

  lemma OkCaches(s: Slot)
    requires SlotOk(s)
    ensures CachesInRange(s) && SsgOff(s) && LevelOk(s)
    ensures Live(s.selRr)
    ensures s.ar != 0 ==> Live(s.selAr)
    ensures s.ar == 0 ==> s.selAr == 18 * RATE_STEPS
    ensures s.d1r != 0 ==> Live(s.selD1r)
    ensures s.d1r == 0 ==> s.selD1r == 18 * RATE_STEPS
    ensures s.d2r != 0 ==> Live(s.selD2r)
    ensures s.d2r == 0 ==> s.selD2r == 18 * RATE_STEPS
  {
    LiveRates(s.ar + s.ksr);
    LiveRates(s.d1r + s.ksr);
    LiveRates(s.d2r + s.ksr);
    LiveRates(s.rr + s.ksr);
  }

  datatype Op =
    | WriteArKsr(v: int) | WriteDr(v: int) | WriteSr(v: int) | WriteSlRr(v: int) | WriteTl(v: int) | WriteSsg(v: int)
    | RefreshKey(kcode: int) | On | OffKey | Csm | Tick(cnt: int)
  {
    /** Register values are bytes, note codes five bits, and no write switches SSG-EG on. */
    predicate Allowed() {
      match this
      case RefreshKey(kcode) => 0 <= kcode < 32
      case On | OffKey | Csm => true
      case Tick(cnt) => 0 <= cnt
      case WriteSsg(v) => Byte(v) && v % 16 < 8
      case _ => Byte(v)
    }
  }

  /** Every table that a step looks into is looked into within its bounds. A tick is modelled with SSG-EG off. */
  predicate Inside(s: Slot, op: Op) {
    match op
    case WriteArKsr(_) | WriteDr(_) | WriteSr(_) | WriteSlRr(_) => RatesInRange(s)
    case RefreshKey(_) => RatesInRange(s) && 0 <= s.KSR <= 3
    case Tick(_) => CachesInRange(s) && SsgOff(s)
    case _ => true
  }

  function Apply(s: Slot, op: Op): Slot
    requires Inside(s, op) && op.Allowed()
  {
    match op
    case WriteArKsr(v) => SetArKsr(s, v)
    case WriteDr(v) => SetDr(s, v)
    case WriteSr(v) => SetSr(s, v)
    case WriteSlRr(v) => SetSlRr(s, v)
    case WriteTl(v) => SetTl(s, v)
    case WriteSsg(v) => SetSsg(s, v)
    case RefreshKey(kcode) => Refresh(s, kcode)
    case On => KeyOn(s)
    case OffKey => KeyOff(s)
    case Csm => CsmPulse(s)
    case Tick(cnt) => Advance(s, cnt)
  }

  lemma AttackKeepsLevel(s: Slot, cnt: int)
    requires CachesInRange(s) && 0 <= cnt && LevelOk(s) && s.state == Attack
    ensures LevelOk(AttackStep(s, cnt)) && AttackStep(s, cnt).volume <= s.volume
    ensures var t := AttackStep(s, cnt); t.state == Attack || (t.state == Decay && t.volume == MIN_ATT_INDEX)
  {
    IncrementInRange(cnt, s.shAr, s.selAr);
    AttackArithmetic(s.volume, Increment(cnt, s.shAr, s.selAr));
    hide Increment, Due;
  }

  /** In one tick an attacking operator never gets quieter and a sustained or released one never louder;
      attack can only turn into decay at full volume, release only into silence. */
  lemma TickKeepsLevel(s: Slot, cnt: int)
    requires CachesInRange(s) && SsgOff(s) && 0 <= cnt && LevelOk(s)
    ensures LevelOk(Advance(s, cnt))
    ensures Advance(s, cnt).volOut == Advance(s, cnt).volume + s.tl
    ensures s.state == Attack ==> Advance(s, cnt).volume <= s.volume
    ensures var t := Advance(s, cnt);
            s.state == Attack ==> t.state == Attack || (t.state == Decay && t.volume == MIN_ATT_INDEX)
    ensures s.state == Sustain || s.state == Release ==> s.volume <= Advance(s, cnt).volume
    ensures s.state == Release ==> Advance(s, cnt).state == Release || Advance(s, cnt).state == Off
    ensures s.state == Off ==> Advance(s, cnt).state == Off
  {
    if s.state == Attack { AttackKeepsLevel(s, cnt); }
    IncrementInRange(cnt, s.shD1r, s.selD1r);
    IncrementInRange(cnt, s.shD2r, s.selD2r);
    IncrementInRange(cnt, s.shRr, s.selRr);
    hide Increment, Due, AttackStep;
  }

  lemma TickKeepsRates(s: Slot, cnt: int)
    requires CachesInRange(s) && SsgOff(s) && 0 <= cnt
    ensures SameRates(s, Advance(s, cnt)) && Advance(s, cnt).ssgn == s.ssgn && Advance(s, cnt).key == s.key
  {
    hide Increment, Due;
  }

  lemma IncrementInRange(cnt: int, sh: int, sel: int)
    requires 0 <= cnt && 0 <= sh <= 11 && 0 <= sel <= 18 * RATE_STEPS
    ensures 0 <= Increment(cnt, sh, sel) <= 16
    ensures sel == 18 * RATE_STEPS ==> Increment(cnt, sh, sel) == 0
  {
    IncrementRange(sel + cnt / Pow2(sh) % 8);
  }

  /** A nonzero increment strictly lowers the attenuation, and a zero one changes nothing: counted from -1, what is left
      is the share of sixteenths that the increment leaves, rounded down. */
  lemma AttackArithmetic(volume: int, inc: int)
    requires 0 <= volume && 0 <= inc <= 16
    ensures -1 <= volume + -(volume + 1) * inc / 16 <= volume
    ensures inc > 0 ==> volume + -(volume + 1) * inc / 16 < volume
    ensures inc == 0 ==> volume + -(volume + 1) * inc / 16 == volume
    ensures volume + -(volume + 1) * inc / 16 + 1 == (volume + 1) * (16 - inc) / 16
  {
    var m := volume + 1;
    assert m * inc <= m * 16 by { assert m * (16 - inc) >= 0; }
    assert inc > 0 ==> m * inc >= m by { if inc > 0 { assert m * (inc - 1) >= 0; } }
    assert -(volume + 1) * inc == -(m * inc);
  }

  lemma OkInside(s: Slot, op: Op)
    requires SlotOk(s)
    ensures Inside(s, op)
  {
    OkCaches(s);
    hide CachesOk, LevelOk;
  }

  lemma StepKeepsOk(s: Slot, op: Op)
    requires SlotOk(s) && op.Allowed()
    ensures Inside(s, op) && SlotOk(Apply(s, op))
  {
    OkCaches(s);
    OkInside(s, op);
    if op.Tick? {
      TickKeepsLevel(s, op.cnt);
      TickKeepsRates(s, op.cnt);
      SameRatesOk(s, Advance(s, op.cnt));
      hide Advance, RateRegistersOk, CachesOk, LevelOk, SameRates, CachesInRange;
    } else {
      RegistersKeepOk(s, op);
      hide *;
    }
  }

  lemma RegistersKeepOk(s: Slot, op: Op)
    requires SlotOk(s) && Inside(s, op) && op.Allowed() && !op.Tick?
    ensures SlotOk(Apply(s, op))
  {
    match op {
      case WriteArKsr(v) => ArKsrKeepsOk(s, v);
      case WriteDr(v) => DrKeepsOk(s, v);
      case WriteSr(v) => SrKeepsOk(s, v);
      case WriteSlRr(v) => SlRrKeepsOk(s, v);
      case WriteTl(v) => LevelsKeepOk(s, v);
      case WriteSsg(v) => LevelsKeepOk(s, v);
      case RefreshKey(kcode) => RefreshKeepsOk(s, kcode);
      case _ => KeysKeepOk(s);
    }
    hide SlotOk, CachesInRange, SetArKsr, SetDr, SetSr, SetSlRr, SetTl, SetSsg, Refresh, KeyOn, KeyOff, CsmPulse,
      Advance;
  }

  lemma ArKsrKeepsOk(s: Slot, v: int)
    requires SlotOk(s) && Byte(v)
    ensures SlotOk(SetArKsr(s, v))
  {
    hide EgRateShift, EgRateSelect2612, AttackShift, AttackSelect;
  }

  lemma DrKeepsOk(s: Slot, v: int)
    requires SlotOk(s) && Byte(v)
    ensures SlotOk(SetDr(s, v))
  {
    hide EgRateShift, EgRateSelect2612, AttackShift, AttackSelect;
  }

  lemma SrKeepsOk(s: Slot, v: int)
    requires SlotOk(s) && Byte(v)
    ensures SlotOk(SetSr(s, v))
  {
    hide EgRateShift, EgRateSelect2612, AttackShift, AttackSelect;
  }

  lemma SlRrKeepsOk(s: Slot, v: int)
    requires SlotOk(s) && Byte(v)
    ensures SlotOk(SetSlRr(s, v))
  {
    hide EgRateShift, EgRateSelect2612, AttackShift, AttackSelect;
  }

  lemma LevelsKeepOk(s: Slot, v: int)
    requires SlotOk(s) && Byte(v)
    ensures SlotOk(SetTl(s, v))
    ensures v % 16 < 8 ==> SlotOk(SetSsg(s, v))
  {
    hide EgRateShift, EgRateSelect2612, AttackShift, AttackSelect;
  }

  lemma KeyOnKeepsOk(s: Slot)
    requires SlotOk(s)
    ensures SlotOk(KeyOn(s))
  {
    KeyOnLevel(s);
    KeyOnRates(s);
    SameRatesOk(s, KeyOn(s));
    hide KeyOn, RateRegistersOk, CachesOk, LevelOk, SameRates;
  }

  lemma KeyOnRates(s: Slot)
    ensures SameRates(s, KeyOn(s))
  {
  }

  lemma KeyOnLevel(s: Slot)
    requires LevelOk(s)
    ensures LevelOk(KeyOn(s))
  {
  }

  lemma KeyOffKeepsOk(s: Slot)
    requires SlotOk(s)
    ensures SlotOk(KeyOff(s))
  {
    KeyOffLevel(s);
    SameRatesOk(s, KeyOff(s));
    hide KeyOff, RateRegistersOk, CachesOk, LevelOk, SameRates;
  }

  lemma KeyOffLevel(s: Slot)
    ensures LevelOk(s) ==> LevelOk(KeyOff(s))
    ensures SameRates(s, KeyOff(s))
  {
  }

  /** Key events and ticks leave the rates, the levels set by registers and the caches alone. */
  ghost predicate SameRates(s: Slot, t: Slot) {
    && t.KSR == s.KSR && t.ar == s.ar && t.d1r == s.d1r && t.d2r == s.d2r && t.rr == s.rr && t.ksr == s.ksr
    && t.tl == s.tl && t.sl == s.sl && t.ssg == s.ssg
    && t.shAr == s.shAr && t.selAr == s.selAr && t.shD1r == s.shD1r && t.selD1r == s.selD1r
    && t.shD2r == s.shD2r && t.selD2r == s.selD2r && t.shRr == s.shRr && t.selRr == s.selRr
  }

  lemma SameRatesOk(s: Slot, t: Slot)
    requires SameRates(s, t)
    ensures RateRegistersOk(s) && CachesOk(s) ==> RateRegistersOk(t) && CachesOk(t)
    ensures CachesInRange(s) ==> CachesInRange(t)
    ensures SsgOff(s) ==> SsgOff(t)
  {
    hide EgRateShift, EgRateSelect2612, AttackShift, AttackSelect;
  }

  lemma KeysKeepOk(s: Slot)
    requires SlotOk(s)
    ensures SlotOk(KeyOn(s)) && SlotOk(KeyOff(s)) && SlotOk(CsmPulse(s))
  {
    hide SlotOk, KeyOn, KeyOff;
    KeyOnKeepsOk(s);
    KeyOffKeepsOk(s);
    KeyOffKeepsOk(KeyOn(s));
  }

  lemma RefreshKeepsOk(s: Slot, kcode: int)
    requires SlotOk(s) && 0 <= kcode < 32
    ensures SlotOk(Refresh(s, kcode))
  {
    hide EgRateShift, EgRateSelect2612, AttackShift, AttackSelect;
  }

  /** Where a run ends up: at a slot, unless a step looked beyond the end of a table. */
  datatype Outcome = At(slot: Slot) | OutOfTable

  predicate AllAllowed(ops: seq<Op>) { forall i :: 0 <= i < |ops| ==> ops[i].Allowed() }

  /** A whole run of register writes, key events and ticks, in any order and from any slot. */
  function Run(s: Slot, ops: seq<Op>): Outcome
    requires AllAllowed(ops)
    decreases |ops|
  {
    if ops == [] then At(s) else if Inside(s, ops[0]) then Run(Apply(s, ops[0]), ops[1..]) else OutOfTable
  }

  /** No run from a good slot looks beyond the end of a table, and every slot it reaches is good: the level is in
      0..1023, a silent operator is at 1023, and the cached offsets are those of its rates. */
  lemma {:induction false} RunKeepsOk(s: Slot, ops: seq<Op>)
    requires SlotOk(s) && AllAllowed(ops)
    ensures var r := Run(s, ops);
            && r.At? && SlotOk(r.slot) && CachesInRange(r.slot)
            && 0 <= r.slot.volume <= MAX_ATT_INDEX && (r.slot.state == Off ==> r.slot.volume == MAX_ATT_INDEX)
    decreases |ops|
  {
    if ops == [] {
      OkCaches(s);
    } else {
      StepKeepsOk(s, ops[0]);
      hide SlotOk, Inside, Apply, CachesInRange, Op.Allowed;
      RunKeepsOk(Apply(s, ops[0]), ops[1..]);
    }
  }

  /** So it is after every prefix of a run. */
  lemma EveryPrefixIsOk(s: Slot, ops: seq<Op>)
    requires SlotOk(s) && AllAllowed(ops)
    ensures forall i :: 0 <= i <= |ops| ==> Run(s, ops[..i]).At? && SlotOk(Run(s, ops[..i]).slot)
  {
    forall i | 0 <= i <= |ops| ensures Run(s, ops[..i]).At? && SlotOk(Run(s, ops[..i]).slot) {
      RunKeepsOk(s, ops[..i]);
    }
    hide *;
  }

  /** Reset silences the operator and then writes zero to every register; from any slot, whatever
      its rates were, this establishes the invariant. */
  function Reset(s: Slot): Slot
    requires RatesInRange(s)
  {
    var t := s.(ssg := 0, ssgn := 0, state := Off, volume := MAX_ATT_INDEX, volOut := MAX_ATT_INDEX);
    SetTl(SetArKsr(SetDr(SetSr(SetSlRr(SetSsg(t, 0), 0), 0), 0), 0), 0)
  }

  lemma ResetIsOk(s: Slot)
    requires RatesInRange(s)
    ensures SlotOk(Reset(s)) && Reset(s).state == Off
  {
    hide EgRateShift, EgRateSelect2612;
  }

  // --------------------------------------------------------------- progress bounds

  lemma TickFrame(s: Slot, u: Slot, cnt: int)
    requires SameRates(s, u) && CachesInRange(u) && SsgOff(u) && 0 <= cnt
    ensures SameRates(s, Advance(u, cnt)) && CachesInRange(Advance(u, cnt)) && SsgOff(Advance(u, cnt))
  {
    TickKeepsRates(u, cnt);
    SameRatesOk(u, Advance(u, cnt));
    hide Advance, CachesInRange, SsgOff;
  }

  /** The global counter after c ticks: it is 32 bits wide. */
  function Counter(c: nat): nat { c % 0x1_0000_0000 }

  /** n ticks with nothing else happening. */
  function Ticks(s: Slot, cnt: nat, n: nat): (t: Slot)
    requires CachesInRange(s) && SsgOff(s)
    ensures SameRates(s, t) && CachesInRange(t) && SsgOff(t)
  {
    if n == 0 then s
    else
      var u := Ticks(s, cnt, n - 1);
      TickFrame(s, u, Counter(cnt + n));
      Advance(u, Counter(cnt + n))
  }

  lemma LastTick(s: Slot, cnt: nat, n: nat) returns (u: Slot, c: nat)
    requires CachesInRange(s) && SsgOff(s) && n > 0
    ensures u == Ticks(s, cnt, n - 1) && c == Counter(cnt + n) && CachesInRange(u) && SsgOff(u)
    ensures Ticks(s, cnt, n) == Advance(u, c)
    ensures u.shAr == s.shAr && u.selAr == s.selAr && u.shD1r == s.shD1r && u.selD1r == s.selD1r
    ensures u.shRr == s.shRr && u.selRr == s.selRr && u.shD2r == s.shD2r && u.selD2r == s.selD2r && u.sl == s.sl
  {
    u, c := Ticks(s, cnt, n - 1), Counter(cnt + n);
    hide Advance, CachesInRange;
  }

  /** Whether a rate acts with a nonzero increment at counter value `cnt`. */
  predicate Fires(cnt: int, sh: int, sel: int)
    requires 0 <= cnt && 0 <= sh <= 11 && 0 <= sel <= 18 * RATE_STEPS
  {
    Due(cnt, sh) && Increment(cnt, sh, sel) > 0
  }

  /** How often the rate fires in n ticks. */
  function Firings(cnt: nat, sh: int, sel: int, n: nat): nat
    requires 0 <= sh <= 11 && 0 <= sel <= 18 * RATE_STEPS
  {
    if n == 0 then 0
    else Firings(cnt, sh, sel, n - 1) + if Fires(Counter(cnt + n), sh, sel) then 1 else 0
  }

  lemma PeriodsDivideWrap(sh: int) returns (t: int)
    requires 0 <= sh <= 11
    ensures Pow2(sh) * (8 * t) == 0x1_0000_0000
  {
    t := 0x2000_0000 / Pow2(sh);
    assert sh in {0, 1, 2, 3, 4, 5, 6, 7, 8, 9, 10, 11};
  }

  /** Wrapping at 32 bits is invisible to every rate: a period of 2^11 * 8 ticks divides 2^32. */
  lemma WrapInvisible(c: nat, sh: int)
    requires 0 <= sh <= 11
    ensures Counter(c) % Pow2(sh) == c % Pow2(sh)
    ensures Counter(c) / Pow2(sh) % 8 == c / Pow2(sh) % 8
  {
    var p, q, r := Pow2(sh), c / 0x1_0000_0000, c % 0x1_0000_0000;
    var t := PeriodsDivideWrap(sh);
    hide Pow2;
    Regroup(p, t, q);
    QuotientPlus(c, p, 8 * (t * q), r);
    EightfoldPlus(t * q, r / p);
  }

  lemma EightfoldPlus(k: int, x: int)
    ensures (8 * k + x) % 8 == x % 8
  {
    MachineWords.Remainder(8 * k + x, k + x / 8, 8, x % 8);
  }

  lemma Regroup(p: int, t: int, q: int)
    ensures p * (8 * t) * q == p * (8 * (t * q))
  {
  }

  lemma QuotientPlus(c: int, p: int, k: int, r: int)
    requires 0 < p && c == p * k + r && 0 <= r
    ensures c / p == k + r / p && c % p == r % p
  {
    assert p * (k + r / p) == p * k + p * (r / p);
    MachineWords.Remainder(c, k + r / p, p, r % p);
  }

  /** How often a rate came due up to counter value `c`. */
  ghost function Quotient(c: nat, sh: int): nat
    requires 0 <= sh <= 11
  {
    c / Pow2(sh)
  }

  /** Whether the increment of a live row at its q-th turn is zero. */
  ghost predicate Idle(sel: int, q: nat)
    requires Live(sel)
  {
    EgInc(sel + q % 8) == 0
  }

  /** m due ticks with at least every second one fired; `idle` says that the last one did not. */
  ghost predicate EverySecond(m: int, idle: bool, fired: int) {
    fired >= if m % 2 == 1 && idle then (m - 1) / 2 else (m + 1) / 2
  }

  /** One step of the count. */
  lemma CountStep(m: int, fired: int, idle: bool, idle': bool, due: bool)
    requires EverySecond(m, idle, fired)
    requires due ==> !(idle && idle')
    requires !due ==> idle == idle'
    ensures EverySecond(m + (if due then 1 else 0), idle', fired + if due && !idle' then 1 else 0)
  {
  }

  /** Passing from c to c + 1 moves the quotient exactly when the rate comes due. */
  lemma NextQuotient(c: nat, sh: int)
    requires 0 <= sh <= 11
    ensures Quotient(c + 1, sh) == Quotient(c, sh) + if Due(c + 1, sh) then 1 else 0
  {
    assert sh in {0, 1, 2, 3, 4, 5, 6, 7, 8, 9, 10, 11};
  }

  lemma NeverIdleAgain(sel: int, q: nat)
    requires Live(sel)
    ensures !(Idle(sel, q) && Idle(sel, q + 1))
  {
    hide EgInc;
    var k := q % 8;
    NeverIdleTwice(sel, k);
    assert (q + 1) % 8 == (k + 1) % 8;
  }

  lemma FiresWhenDue(c: nat, sh: int, sel: int)
    requires 0 <= sh <= 11 && Live(sel)
    ensures Fires(Counter(c), sh, sel) <==> Due(c, sh) && !Idle(sel, Quotient(c, sh))
  {
    WrapInvisible(c, sh);
    IncrementRange(sel + c / Pow2(sh) % 8);
    hide EgInc, Pow2;
  }

  lemma NextFiring(cnt: nat, sh: int, sel: int, n: nat)
    requires 0 <= sh <= 11 && 0 <= sel <= 18 * RATE_STEPS && n > 0
    ensures Firings(cnt, sh, sel, n)
         == Firings(cnt, sh, sel, n - 1) + if Fires(Counter(cnt + n), sh, sel) then 1 else 0
  {
    hide Fires;
  }

  lemma NoFiring(cnt: nat, sh: int, sel: int)
    requires 0 <= sh <= 11 && 0 <= sel <= 18 * RATE_STEPS
    ensures Firings(cnt, sh, sel, 0) == 0
  {
  }

  lemma NoFiringYet(cnt: nat, sh: int, sel: int)
    requires 0 <= sh <= 11 && Live(sel)
    ensures 0 <= sel <= 18 * RATE_STEPS
    ensures EverySecond(Quotient(cnt, sh) - Quotient(cnt, sh), Idle(sel, Quotient(cnt, sh)), Firings(cnt, sh, sel, 0))
  {
    hide Quotient, Idle, Fires;
  }

  /** What one tick does to the count: the quotient moves when the rate comes due, and the rate fires when it is due
      and its increment is not zero. */
  lemma FiringStep(cnt: nat, sh: int, sel: int, n: nat)
    requires 0 <= sh <= 11 && Live(sel) && 0 <= sel <= 18 * RATE_STEPS
    requires EverySecond(Quotient(cnt + n, sh) - Quotient(cnt, sh),
          Idle(sel, Quotient(cnt + n, sh)), Firings(cnt, sh, sel, n))
    ensures EverySecond(Quotient(cnt + n + 1, sh) - Quotient(cnt, sh), Idle(sel, Quotient(cnt + n + 1, sh)),
                        Firings(cnt, sh, sel, n + 1))
  {
    hide *;
    var c := cnt + n;
    NextQuotient(c, sh);
    NeverIdleAgain(sel, Quotient(c, sh));
    FiresWhenDue(c + 1, sh, sel);
    NextFiring(cnt, sh, sel, n + 1);
    CountStep(Quotient(c, sh) - Quotient(cnt, sh), Firings(cnt, sh, sel, n),
              Idle(sel, Quotient(c, sh)), Idle(sel, Quotient(c + 1, sh)), Due(c + 1, sh));
  }

  /** The core of the progress proof: a live rate comes due once per 2^sh ticks and fires at least
      every second time. Whether the last turn was idle carries the parity through the induction. */
  lemma {:induction false} FiresEverySecondTime(cnt: nat, sh: int, sel: int, n: nat)
    requires 0 <= sh <= 11 && Live(sel)
    ensures 0 <= sel <= 18 * RATE_STEPS
    ensures EverySecond(Quotient(cnt + n, sh) - Quotient(cnt, sh),
          Idle(sel, Quotient(cnt + n, sh)), Firings(cnt, sh, sel, n))
  {
    hide *;
    if n == 0 {
      NoFiringYet(cnt, sh, sel);
    } else {
      FiresEverySecondTime(cnt, sh, sel, n - 1);
      FiringStep(cnt, sh, sel, n - 1);
    }
  }

  lemma FirstAndLast(cnt: nat, sh: int, half: nat)
    requires 0 <= sh <= 11
    ensures Quotient(cnt + 2 * half * Pow2(sh), sh) - Quotient(cnt, sh) == 2 * half
  {
    var p := Pow2(sh);
    hide Pow2;
    assert p * (cnt / p + 2 * half) == p * (cnt / p) + 2 * half * p;
    MachineWords.Remainder(cnt + 2 * half * p, cnt / p + 2 * half, p, cnt % p);
  }

  /** In any number of double periods a live rate fires at least as often. */
  lemma FiresInPeriods(cnt: nat, sh: int, sel: int, half: nat)
    requires 0 <= sh <= 11 && Live(sel)
    ensures 0 <= sel <= 18 * RATE_STEPS && Firings(cnt, sh, sel, 2 * half * Pow2(sh)) >= half
  {
    hide *;
    var n := 2 * half * Pow2(sh);
    FiresEverySecondTime(cnt, sh, sel, n);
    FirstAndLast(cnt, sh, half);
    HalfOf(half, Idle(sel, Quotient(cnt + n, sh)), Firings(cnt, sh, sel, n));
  }

  lemma HalfOf(half: nat, idle: bool, fired: int)
    requires EverySecond(2 * half, idle, fired)
    ensures fired >= half
  {
  }

  /** In 1024 double periods a live rate fires at least 1024 times. */
  lemma EnoughFirings(cnt: nat, sh: int, sel: int)
    requires 0 <= sh <= 11 && Live(sel)
    ensures 0 <= sel <= 18 * RATE_STEPS && Firings(cnt, sh, sel, 2 * 1024 * Pow2(sh)) >= 1024
  {
    hide *;
    FiresInPeriods(cnt, sh, sel, 1024);
  }

  lemma NoTick(s: Slot, cnt: nat)
    requires CachesInRange(s) && SsgOff(s)
    ensures Ticks(s, cnt, 0) == s
  {
  }

  lemma ReleaseTick(u: Slot, c: nat)
    requires CachesInRange(u) && SsgOff(u) && LevelOk(u) && u.state == Release
    ensures var t := Advance(u, c);
            t.state == Off || (t.state == Release && t.volume >= u.volume + if Fires(c, u.shRr, u.selRr) then 1 else 0)
  {
    IncrementInRange(c, u.shRr, u.selRr);
    hide Increment, Pow2;
  }

  /** While released, the attenuation grows by at least one per firing. */
  lemma {:induction false} ReleaseProgress(s: Slot, cnt: nat, n: nat)
    requires CachesInRange(s) && SsgOff(s) && LevelOk(s) && s.state == Release
    ensures var t := Ticks(s, cnt, n);
            && LevelOk(t)
            && (t.state == Off || (t.state == Release && t.volume >= s.volume + Firings(cnt, s.shRr, s.selRr, n)))
  {
    assert 0 <= s.shRr <= 11 && 0 <= s.selRr <= 18 * RATE_STEPS;
    hide *;
    if n == 0 {
      NoTick(s, cnt);
      NoFiring(cnt, s.shRr, s.selRr);
    } else {
      ReleaseProgress(s, cnt, n - 1);
      var u, c := LastTick(s, cnt, n);
      TickKeepsLevel(u, c);
      NextFiring(cnt, s.shRr, s.selRr, n);
      if u.state == Release { ReleaseTick(u, c); }
    }
  }

  /** A released operator falls silent, and then stays at full attenuation, within 2048 * 2^shift ticks,
      wherever the counter stands and whatever its level was. */
  lemma ReleaseEnds(s: Slot, cnt: nat)
    requires SlotOk(s) && CachesInRange(s) && s.state == Release
    ensures var t := Ticks(s, cnt, 2 * 1024 * Pow2(s.shRr)); t.state == Off && t.volume == MAX_ATT_INDEX
  {
    OkCaches(s);
    EnoughFirings(cnt, s.shRr, s.selRr);
    ReleaseProgress(s, cnt, 2 * 1024 * Pow2(s.shRr));
    hide *;
  }

  lemma AttackTick(u: Slot, c: nat)
    requires CachesInRange(u) && SsgOff(u) && LevelOk(u) && u.state == Attack
    ensures var t := Advance(u, c);
            t.state == Attack ==> t.volume <= u.volume - if Fires(c, u.shAr, u.selAr) then 1 else 0
  {
    IncrementInRange(c, u.shAr, u.selAr);
    AttackArithmetic(u.volume, Increment(c, u.shAr, u.selAr));
    hide Increment, Pow2;
  }

  /** Attack is not come back to from decay or sustain. */
  lemma LaterTick(u: Slot, c: nat)
    requires CachesInRange(u) && SsgOff(u)
    ensures u.state == Decay || u.state == Sustain ==> Advance(u, c).state == Decay || Advance(u, c).state == Sustain
    ensures u.state == Sustain ==> Advance(u, c).state == Sustain
  {
    hide Increment, Pow2, Due;
  }

  /** While attacking, the attenuation falls by at least one per firing. */
  lemma {:induction false} AttackProgress(s: Slot, cnt: nat, n: nat)
    requires CachesInRange(s) && SsgOff(s) && LevelOk(s) && s.state == Attack
    ensures var t := Ticks(s, cnt, n);
            && LevelOk(t) && (t.state == Attack || t.state == Decay || t.state == Sustain)
            && (t.state == Attack ==> t.volume <= s.volume - Firings(cnt, s.shAr, s.selAr, n))
  {
    assert 0 <= s.shAr <= 11 && 0 <= s.selAr <= 18 * RATE_STEPS;
    hide *;
    if n == 0 {
      NoTick(s, cnt);
      NoFiring(cnt, s.shAr, s.selAr);
    } else {
      AttackProgress(s, cnt, n - 1);
      var u, c := LastTick(s, cnt, n);
      TickKeepsLevel(u, c);
      LaterTick(u, c);
      NextFiring(cnt, s.shAr, s.selAr, n);
      if u.state == Attack { AttackTick(u, c); }
    }
  }

  lemma LastAttackTick(s: Slot, cnt: nat, n: nat)
    requires CachesInRange(s) && SsgOff(s) && LevelOk(s) && s.state == Attack && n > 0
    requires Ticks(s, cnt, n - 1).state == Attack && Ticks(s, cnt, n).state != Attack
    ensures Ticks(s, cnt, n).state == Decay && Ticks(s, cnt, n).volume == MIN_ATT_INDEX
  {
    hide *;
    AttackProgress(s, cnt, n - 1);
    var u, c := LastTick(s, cnt, n);
    TickKeepsLevel(u, c);
  }

  /** Attack is left only into decay, at full volume. */
  lemma {:induction false} AttackIsLeftIntoDecay(s: Slot, cnt: nat, n: nat) returns (k: nat)
    requires CachesInRange(s) && SsgOff(s) && LevelOk(s) && s.state == Attack
    requires Ticks(s, cnt, n).state != Attack
    ensures k <= n && Ticks(s, cnt, k).state == Decay && Ticks(s, cnt, k).volume == MIN_ATT_INDEX
  {
    hide *;
    NoTick(s, cnt);
    if Ticks(s, cnt, n - 1).state == Attack {
      k := n;
      LastAttackTick(s, cnt, n);
    } else {
      k := AttackIsLeftIntoDecay(s, cnt, n - 1);
    }
  }

  lemma AttackIsOver(s: Slot, cnt: nat)
    requires CachesInRange(s) && SsgOff(s) && LevelOk(s) && s.state == Attack && Live(s.selAr)
    ensures Ticks(s, cnt, 2 * 1024 * Pow2(s.shAr)).state != Attack
  {
    EnoughFirings(cnt, s.shAr, s.selAr);
    AttackProgress(s, cnt, 2 * 1024 * Pow2(s.shAr));
    hide Ticks, Advance, Pow2, Firings, EgInc;
  }

  /** With a nonzero attack rate the operator reaches decay at full volume within 2048 * 2^shift ticks. */
  lemma AttackEnds(s: Slot, cnt: nat) returns (k: nat)
    requires SlotOk(s) && CachesInRange(s) && s.state == Attack && s.ar != 0
    ensures k <= 2 * 1024 * Pow2(s.shAr)
    ensures Ticks(s, cnt, k).state == Decay && Ticks(s, cnt, k).volume == MIN_ATT_INDEX
  {
    hide *;
    OkCaches(s);
    AttackIsOver(s, cnt);
    k := AttackIsLeftIntoDecay(s, cnt, 2 * 1024 * Pow2(s.shAr));
  }

  lemma StuckAttackTick(u: Slot, c: nat)
    requires CachesInRange(u) && SsgOff(u) && u.state == Attack
    requires u.selAr == 18 * RATE_STEPS && u.volume > MIN_ATT_INDEX
    ensures Advance(u, c).state == Attack && Advance(u, c).volume == u.volume
  {
    IncrementInRange(c, u.shAr, u.selAr);
    AttackArithmetic(u.volume, 0);
    hide Increment, Due;
  }

  /** With attack rate zero an operator that is not already at full volume never moves. */
  lemma {:induction false} AttackStuck(s: Slot, cnt: nat, n: nat)
    requires CachesInRange(s) && SsgOff(s) && s.state == Attack
    requires s.selAr == 18 * RATE_STEPS && s.volume > MIN_ATT_INDEX
    ensures Ticks(s, cnt, n).state == Attack && Ticks(s, cnt, n).volume == s.volume
  {
    hide *;
    if n == 0 {
      NoTick(s, cnt);
    } else {
      AttackStuck(s, cnt, n - 1);
      var u, c := LastTick(s, cnt, n);
      StuckAttackTick(u, c);
    }
  }

  /** The exact condition under which an attack ever ends. */
  lemma AttackEndsExactlyWhen(s: Slot, cnt: nat)
    requires SlotOk(s) && CachesInRange(s) && s.state == Attack
    ensures (exists k: nat :: Ticks(s, cnt, k).state == Decay) <==> s.ar != 0 || s.volume == MIN_ATT_INDEX
  {
    hide *;
    OkCaches(s);
    if s.ar != 0 {
      var k := AttackEnds(s, cnt);
    } else if s.volume == MIN_ATT_INDEX {
      AttackFromFullVolume(s, cnt);
    } else {
      LevelsOf(s);
      forall k: nat ensures Ticks(s, cnt, k).state == Attack {
        AttackStuck(s, cnt, k);
      }
    }
  }

  lemma LevelsOf(s: Slot)
    requires LevelOk(s)
    ensures MIN_ATT_INDEX <= s.volume <= MAX_ATT_INDEX
  {
  }

  lemma AttackFromFullVolume(s: Slot, cnt: nat)
    requires SlotOk(s) && CachesInRange(s) && s.state == Attack && s.ar == 0 && s.volume == MIN_ATT_INDEX
    ensures Ticks(s, cnt, 1).state == Decay
  {
    var c := Counter(cnt + 1);
    assert s.shAr == 0;
    IncrementInRange(c, s.shAr, s.selAr);
    assert Due(c, s.shAr);
    assert Ticks(s, cnt, 0) == s;
    hide Increment, CachesOk;
  }

  lemma DecayTick(u: Slot, c: nat)
    requires CachesInRange(u) && SsgOff(u) && LevelOk(u) && u.state == Decay
    ensures var t := Advance(u, c);
            (t.state == Sustain && t.volume >= u.sl)
            || (t.state == Decay && t.volume >= u.volume + if Fires(c, u.shD1r, u.selD1r) then 1 else 0)
  {
    IncrementInRange(c, u.shD1r, u.selD1r);
    hide Increment, Pow2;
  }

  /** While decaying, the attenuation grows by at least one per firing until it meets the sustain level. */
  lemma {:induction false} DecayProgress(s: Slot, cnt: nat, n: nat)
    requires CachesInRange(s) && SsgOff(s) && LevelOk(s) && s.state == Decay
    ensures var t := Ticks(s, cnt, n);
            && LevelOk(t)
            && ((t.state == Sustain && t.volume >= s.sl)
                || (t.state == Decay && t.volume >= s.volume + Firings(cnt, s.shD1r, s.selD1r, n)))
  {
    assert 0 <= s.shD1r <= 11 && 0 <= s.selD1r <= 18 * RATE_STEPS;
    hide *;
    if n == 0 {
      NoTick(s, cnt);
      NoFiring(cnt, s.shD1r, s.selD1r);
    } else {
      DecayProgress(s, cnt, n - 1);
      var u, c := LastTick(s, cnt, n);
      TickKeepsLevel(u, c);
      LaterTick(u, c);
      NextFiring(cnt, s.shD1r, s.selD1r, n);
      if u.state == Decay { DecayTick(u, c); }
    }
  }

  lemma StuckDecayTick(u: Slot, c: nat)
    requires CachesInRange(u) && SsgOff(u) && u.state == Decay && u.selD1r == 18 * RATE_STEPS && u.volume < u.sl
    ensures Advance(u, c).state == Decay && Advance(u, c).volume == u.volume
  {
    IncrementInRange(c, u.shD1r, u.selD1r);
    hide Increment, Due;
  }

  lemma {:induction false} DecayStuck(s: Slot, cnt: nat, n: nat)
    requires CachesInRange(s) && SsgOff(s) && s.state == Decay && s.selD1r == 18 * RATE_STEPS && s.volume < s.sl
    ensures Ticks(s, cnt, n).state == Decay && Ticks(s, cnt, n).volume == s.volume
  {
    hide *;
    if n == 0 {
      NoTick(s, cnt);
    } else {
      DecayStuck(s, cnt, n - 1);
      var u, c := LastTick(s, cnt, n);
      StuckDecayTick(u, c);
    }
  }

  /** The exact condition under which a decay ever reaches sustain; when it does, it takes
      at most 2048 * 2^shift ticks. */
  lemma DecayEndsExactlyWhen(s: Slot, cnt: nat)
    requires SlotOk(s) && CachesInRange(s) && s.state == Decay
    ensures (exists k: nat :: Ticks(s, cnt, k).state == Sustain) <==> s.d1r != 0 || s.volume >= s.sl
    ensures s.d1r != 0 ==> Ticks(s, cnt, 2 * 1024 * Pow2(s.shD1r)).state == Sustain
  {
    hide *;
    OkCaches(s);
    if s.d1r != 0 {
      DecayEnds(s, cnt);
    } else if s.volume >= s.sl {
      DecayFromSustainLevel(s, cnt);
    } else {
      forall k: nat ensures Ticks(s, cnt, k).state == Decay {
        DecayStuck(s, cnt, k);
      }
    }
  }

  lemma DecayEnds(s: Slot, cnt: nat)
    requires CachesInRange(s) && SsgOff(s) && LevelOk(s) && s.state == Decay && Live(s.selD1r)
    ensures Ticks(s, cnt, 2 * 1024 * Pow2(s.shD1r)).state == Sustain
  {
    EnoughFirings(cnt, s.shD1r, s.selD1r);
    DecayProgress(s, cnt, 2 * 1024 * Pow2(s.shD1r));
    hide Ticks, Firings, Pow2;
  }

  lemma DecayFromSustainLevel(s: Slot, cnt: nat)
    requires CachesInRange(s) && SsgOff(s) && s.state == Decay && s.volume >= s.sl
    ensures Ticks(s, cnt, 1).state == Sustain
  {
    var u, c := LastTick(s, cnt, 1);
    NoTick(s, cnt);
    IncrementInRange(c, s.shD1r, s.selD1r);
    hide Increment, Ticks, Due, Counter;
  }

  // ---------------------------------------------------------------------- channel

  ghost function Ticked(s: Slot, cnt: int): Slot
    requires SlotOk(s) && 0 <= cnt
  {
    OkCaches(s);
    Advance(s, cnt)
  }

  lemma TickedKeepsOk(s: Slot, cnt: int)
    requires SlotOk(s) && 0 <= cnt
    ensures CachesInRange(s) && SsgOff(s)
    ensures SlotOk(Ticked(s, cnt)) && Ticked(s, cnt) == Advance(s, cnt)
  {
    OkCaches(s);
    StepKeepsOk(s, Tick(cnt));
    hide CachesOk, LevelOk, RatesInRange, Advance;
  }

  /** Four operators that share a channel. */
  class Channel {
    const slot: array<Slot>

    ghost predicate Valid()
      reads slot
    {
      slot.Length == 4 && forall i :: 0 <= i < 4 ==> SlotOk(slot[i])
    }

    constructor (initial: Slot)
      requires RatesInRange(initial)
      ensures Valid() && fresh(slot)
      ensures forall i :: 0 <= i < 4 ==> slot[i] == Reset(initial)
    {
      ResetIsOk(initial);
      OkCaches(Reset(initial));
      slot := new Slot[4](i => Reset(initial));
    }

    /** A register write or key event on one operator. */
    method Write(i: int, op: Op)
      requires Valid() && 0 <= i < 4 && op.Allowed() && !op.Tick?
      modifies slot
      ensures Valid() && Inside(old(slot[i]), op)
      ensures slot[..] == old(slot[..])[i := Apply(old(slot[i]), op)]
    {
      StepKeepsOk(slot[i], op);
      hide SlotOk, Inside, Apply, Op.Allowed;
      var after := WriteSlot(slot[i], op);
      slot[i] := after;
    }

    static method WriteSlot(s: Slot, op: Op) returns (t: Slot)
      requires Inside(s, op) && op.Allowed() && !op.Tick?
      ensures t == Apply(s, op)
    {
      hide RatesInRange, SetArKsr, SetDr, SetSr, SetSlRr, SetTl, SetSsg, Refresh, KeyOn, KeyOff, CsmPulse;
      t := match op
        case WriteArKsr(v) => SetArKsr(s, v)
        case WriteDr(v) => SetDr(s, v)
        case WriteSr(v) => SetSr(s, v)
        case WriteSlRr(v) => SetSlRr(s, v)
        case WriteTl(v) => SetTl(s, v)
        case WriteSsg(v) => SetSsg(s, v)
        case RefreshKey(kcode) => Refresh(s, kcode)
        case On => KeyOn(s)
        case OffKey => KeyOff(s)
        case Csm => CsmPulse(s);
    }

    /** One envelope tick for all four operators, as the source's statements. */
    method AdvanceEg(cnt: int)
      requires Valid() && 0 <= cnt
      modifies slot
      ensures Valid()
      ensures forall i :: 0 <= i < 4 ==> slot[i] == Ticked(old(slot[i]), cnt)
    {
      hide SlotOk, Ticked, Advance, CachesInRange, SsgOff;
      var i := 4;
      while i > 0
        invariant 0 <= i <= 4
        invariant forall j :: 0 <= j < 4 ==> SlotOk(slot[j])
        invariant forall j :: 0 <= j < 4 ==> slot[j] == if j < 4 - i then Ticked(old(slot[j]), cnt) else old(slot[j])
      {
        TickedKeepsOk(slot[4 - i], cnt);
        var after := AdvanceSlot(slot[4 - i], cnt);
        slot[4 - i] := after;
        i := i - 1;
      }
    }

    static method AdvanceSlot(s: Slot, cnt: int) returns (t: Slot)
      requires CachesInRange(s) && SsgOff(s) && 0 <= cnt
      ensures t == Advance(s, cnt)
    {
      hide Increment, Pow2;
      var volume, state := s.volume, s.state;
      match state {
        case Attack =>
          if cnt % Pow2(s.shAr) == 0 {
            volume := volume + (-1 - volume) * Increment(cnt, s.shAr, s.selAr) / 16;
            if volume <= MIN_ATT_INDEX {
              volume := MIN_ATT_INDEX;
              state := Decay;
            }
          }
        case Decay =>
          if cnt % Pow2(s.shD1r) == 0 {
            volume := volume + Increment(cnt, s.shD1r, s.selD1r);
          }
          if volume >= s.sl {
            volume := s.sl;
            state := Sustain;
          }
        case Sustain =>
          if cnt % Pow2(s.shD2r) == 0 {
            volume := volume + Increment(cnt, s.shD2r, s.selD2r);
            if volume >= MAX_ATT_INDEX {
              volume := MAX_ATT_INDEX;
            }
          }
        case Release =>
          if cnt % Pow2(s.shRr) == 0 {
            volume := volume + Increment(cnt, s.shRr, s.selRr);
            if volume >= MAX_ATT_INDEX {
              volume := MAX_ATT_INDEX;
              state := Off;
            }
          }
        case Off =>
      }
      t := s.(volume := volume, state := state, volOut := volume + s.tl);
    }
  }
}
