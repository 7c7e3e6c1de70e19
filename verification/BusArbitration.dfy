/** The two CPUs on their cycle odometers (mdfr.cpp) and the bus arbitration between them (mem.cpp).

    A CPU core is what it is asked for and what it does with it: for n cycles it takes between n and n + K - 1, and a
    68000 core also writes to BUSREQ and RESET on the way, at times of its own. Everything here holds for every such
    behaviour. The trace records what happened, in Z80 cycles; the code itself keeps no such record. */
module BusArbitration {
  /** The cycles from one time up to, not including, another. */
  datatype Span = Span(from: int, to: int)

  /** The ranges the Z80 core was asked to execute, the closed ranges in which the 68000 held its bus, when it took
      the bus it is holding, the 68000 time of the last thing that happened, what the odometer was advanced by with
      and without execution, and how many releases left held cycles in front of the odometer. */
  datatype Trace = Trace(ran: seq<Span>, held: seq<Span>, since: int, now: int, executed: int, faked: int, late: nat)

  datatype State = State(m68k: int, m68kMax: int, z80: int, z80Max: int, busreq: bool, reset: bool, trace: Trace)

  function Min(a: int, b: int): int { if a < b then a else b }

  function Max(a: int, b: int): int { if a < b then b else a }

  // --------------------------------------------------------------------------- Z80

  /** Advances the odometer without running the core. */
  function Fake(s: State, n: nat): State {
    s.(z80 := s.z80 + n, trace := s.trace.(faked := s.trace.faked + n))
  }

  /** Runs the core for n cycles, of which it takes n + k. */
  function Execute(s: State, n: nat, k: nat): State {
    s.(z80 := s.z80 + n + k,
       trace := s.trace.(ran := s.trace.ran + [Span(s.z80, s.z80 + n)], executed := s.trace.executed + n + k))
  }

  /** z80_sync: catches up with the 68000 at its time t, but not past the limit of the slice. */
  function Sync(s: State, t: int, fake: bool, k: nat): State {
    var n := Min(t / 2, s.z80Max) - s.z80;
    if n <= 0 then s else if fake then Fake(s, n) else Execute(s, n, k)
  }

  /** z80_run: up to the limit, without execution while the bus is held or the Z80 is in reset. */
  function RunZ80(s: State, k: nat): State {
    var n := s.z80Max - s.z80;
    if n <= 0 then s else if s.busreq || s.reset then Fake(s, n) else Execute(s, n, k)
  }

  // --------------------------------------------------------------------------- bus

  function Request(s: State, t: int, k: nat): State {
    if s.busreq then s
    else
      var r := s.(busreq := true, trace := s.trace.(since := t / 2));
      if s.reset then r else Sync(r, t, false, k)
  }

  function Cancel(s: State, t: int): State {
    if !s.busreq then s
    else
      var r := Sync(s.(busreq := false), t, true, 0);
      r.(trace := r.trace.(held := r.trace.held + [Span(s.trace.since, t / 2)],
                           late := r.trace.late + if r.z80 < t / 2 then 1 else 0))
  }

  function EnterReset(s: State, t: int, k: nat): State {
    if s.reset then s else (if s.busreq then s else Sync(s, t, false, k)).(reset := true)
  }

  function LeaveReset(s: State): State { s.(reset := false) }

  /** A write of the 68000 to BUSREQ or RESET, some cycles after the one before it; `k` is how far a Z80 core that
      is run because of it overshoots. */
  datatype Act =
    | TakeBus(gap: nat, k: nat)
    | ReleaseBus(gap: nat, k: nat)
    | ResetZ80(gap: nat, k: nat)
    | StartZ80(gap: nat, k: nat)

  function Do(s: State, t: int, a: Act): State {
    var r := match a
      case TakeBus(_, k) => Request(s, t, k)
      case ReleaseBus(_, _) => Cancel(s, t)
      case ResetZ80(_, k) => EnterReset(s, t, k)
      case StartZ80(_, _) => LeaveReset(s);
    r.(trace := r.trace.(now := t))
  }

  function DoAll(s: State, time: int, end: int, acts: seq<Act>): State
    decreases |acts|
  {
    if acts == [] then s
    else
      var t := Min(time + acts[0].gap, end);
      DoAll(Do(s, t, acts[0]), t, end, acts[1..])
  }

  // ------------------------------------------------------------------------- 68000

  /** What a 68000 core does when it is run: how far it overshoots, and its bus writes. */
  datatype Script = Script(over: nat, acts: seq<Act>)

  ghost predicate Tame(c: Script, k: nat) {
    c.over < k && forall i :: 0 <= i < |c.acts| ==> c.acts[i].k < k
  }

  /** m68k_run: nothing if the limit has been passed already. */
  function RunM68k(s: State, c: Script): State {
    var n := s.m68kMax - s.m68k;
    if n <= 0 then s
    else
      var end := s.m68k + n + c.over;
      var r := DoAll(s, s.m68k, end, c.acts);
      r.(m68k := end, trace := r.trace.(now := end))
  }

  function Raise(s: State, m: int, z: int): State { s.(m68kMax := m, z80Max := z) }

  /** One slice of a frame: new limits, then the 68000, then the Z80. */
  datatype Slice = Slice(m: int, z: int, c: Script, k: nat)

  function Run(s: State, x: Slice): State { RunZ80(RunM68k(Raise(s, x.m, x.z), x.c), x.k) }

  function RunAll(s: State, xs: seq<Slice>): State
    decreases |xs|
  {
    if xs == [] then s else RunAll(Run(s, xs[0]), xs[1..])
  }

  /** The limits never go back, and the cores overshoot by less than k. */
  ghost predicate Steady(s: State, xs: seq<Slice>, k: nat)
    decreases |xs|
  {
    xs == [] || (StepsOn(s.m68kMax, s.z80Max, xs[0], k) && Steady(Raise(s, xs[0].m, xs[0].z), xs[1..], k))
  }

  ghost predicate StepsOn(m: int, z: int, x: Slice, k: nat) {
    m <= x.m && z <= x.z && Tame(x.c, k) && x.k < k
  }

  // --------------------------------------------------------- odometers and conservation

  /** Time has only been advanced by execution and by pretence. */
  ghost predicate Conserved(s: State) { s.z80 == s.trace.executed + s.trace.faked }

  /** What one step may do to the Z80 odometer: it never goes back, and never K or more past the limit. */
  ghost predicate Forward(s: State, r: State, k: nat) {
    && s.z80 <= r.z80 && (s.z80 < s.z80Max + k ==> r.z80 < r.z80Max + k)
    && (Conserved(s) ==> Conserved(r))
    && r.m68kMax == s.m68kMax && r.z80Max == s.z80Max && r.m68k == s.m68k
  }

  lemma SyncForward(s: State, t: int, fake: bool, j: nat, k: nat)
    requires j < k
    ensures Forward(s, Sync(s, t, fake, j), k)
  {
  }

  lemma DoForward(s: State, t: int, a: Act, k: nat)
    requires a.k < k
    ensures Forward(s, Do(s, t, a), k)
  {
    SyncForward(s, t, false, a.k, k);
    SyncForward(s.(busreq := true, trace := s.trace.(since := t / 2)), t, false, a.k, k);
    SyncForward(s.(busreq := false), t, true, 0, k);
    hide Sync;
  }

  lemma {:induction false} DoAllForward(s: State, time: int, end: int, acts: seq<Act>, k: nat)
    requires forall i :: 0 <= i < |acts| ==> acts[i].k < k
    ensures Forward(s, DoAll(s, time, end, acts), k)
    decreases |acts|
  {
    hide Do;
    if acts != [] {
      var t := Min(time + acts[0].gap, end);
      DoForward(s, t, acts[0], k);
      DoAllForward(Do(s, t, acts[0]), t, end, acts[1..], k);
    }
  }

  /** The state between slices: each odometer at its limit or less than K beyond it. */
  ghost predicate AtLimits(s: State, k: nat) {
    s.m68kMax <= s.m68k < s.m68kMax + k && s.z80Max <= s.z80 < s.z80Max + k
  }

  /** A slice brings both odometers to the new limits, and none of them goes back. */
  lemma RunReachesLimits(s: State, x: Slice, k: nat)
    requires AtLimits(s, k) && StepsOn(s.m68kMax, s.z80Max, x, k)
    ensures var r := Run(s, x);
            && AtLimits(r, k) && r.m68kMax == x.m && r.z80Max == x.z && s.m68k <= r.m68k && s.z80 <= r.z80
            && (Conserved(s) ==> Conserved(r))
  {
    var a := Raise(s, x.m, x.z);
    if a.m68k < a.m68kMax {
      DoAllForward(a, a.m68k, a.m68kMax + x.c.over, x.c.acts, k);
    }
    hide DoAll;
  }

  lemma {:induction false} FrameReachesLimits(s: State, xs: seq<Slice>, k: nat)
    requires AtLimits(s, k) && Steady(s, xs, k)
    ensures var r := RunAll(s, xs);
            && AtLimits(r, k) && s.m68k <= r.m68k && s.z80 <= r.z80
            && (Conserved(s) ==> Conserved(r))
            && (xs != [] ==> r.m68kMax == xs[|xs| - 1].m && r.z80Max == xs[|xs| - 1].z)
    decreases |xs|
  {
    if xs != [] {
      RunReachesLimits(s, xs[0], k);
      SteadyFrom(Raise(s, xs[0].m, xs[0].z), Run(s, xs[0]), xs[1..], k);
      hide Run, AtLimits, Conserved;
      FrameReachesLimits(Run(s, xs[0]), xs[1..], k);
    }
  }

  /** Only the limits matter to what may come next. */
  lemma {:induction false} SteadyFrom(s: State, r: State, xs: seq<Slice>, k: nat)
    requires s.m68kMax == r.m68kMax && s.z80Max == r.z80Max && Steady(s, xs, k)
    ensures Steady(r, xs, k)
    decreases |xs|
  {
    hide StepsOn;
    if xs != [] {
      SteadyFrom(Raise(s, xs[0].m, xs[0].z), Raise(r, xs[0].m, xs[0].z), xs[1..], k);
    }
  }

  // ------------------------------------------------------------ catching up and stopping

  /** Catching up brings the Z80 to the time of the 68000 or the end of the slice, whichever comes first, and past it
      only by the overshoot of its core; an odometer that is already there is left alone. */
  lemma SyncCatchesUp(s: State, t: int, fake: bool, k: nat)
    ensures var r, target := Sync(s, t, fake, k).z80, Max(s.z80, Min(t / 2, s.z80Max));
            target <= r <= target + (if fake || target == s.z80 then 0 else k)
  {
  }

  /** Taking the bus from a running Z80, or putting it in reset, first lets it run up to that moment. */
  lemma StoppingCatchesUp(s: State, t: int, a: Act)
    requires !s.busreq && !s.reset && (a.TakeBus? || a.ResetZ80?)
    ensures var r, target := Do(s, t, a), Max(s.z80, Min(t / 2, s.z80Max));
            && target <= r.z80 <= target + a.k && r.trace.executed == s.trace.executed + r.z80 - s.z80
            && Stopped(r)
  {
  }

  ghost predicate Stopped(s: State) { s.busreq || s.reset }

  /** Neither a release of the bus that is held nor the end of the reset. */
  ghost predicate KeepsStopped(s: State, acts: seq<Act>) {
    || (s.busreq && forall i :: 0 <= i < |acts| ==> !acts[i].ReleaseBus?)
    || (s.reset && forall i :: 0 <= i < |acts| ==> !acts[i].StartZ80?)
  }

  ghost predicate SameRuns(s: State, r: State) { r.trace.ran == s.trace.ran && r.trace.executed == s.trace.executed }

  lemma {:induction false} NothingRunsMeanwhile(s: State, time: int, end: int, acts: seq<Act>)
    requires KeepsStopped(s, acts)
    ensures var r := DoAll(s, time, end, acts);
            SameRuns(s, r) && Stopped(r)
    decreases |acts|
  {
    if acts != [] {
      var t := Min(time + acts[0].gap, end);
      var r := Do(s, t, acts[0]);
      assert SameRuns(s, r) && KeepsStopped(r, acts[1..]);
      hide Do;
      NothingRunsMeanwhile(r, t, end, acts[1..]);
    }
  }

  /** A slice in which the Z80 stays stopped executes nothing, yet takes its odometer to the limit. */
  lemma StoppedSliceRunsNothing(s: State, x: Slice, k: nat)
    requires KeepsStopped(s, x.c.acts) && AtLimits(s, k) && StepsOn(s.m68kMax, s.z80Max, x, k)
    ensures var r := Run(s, x); SameRuns(s, r) && r.z80 == Max(s.z80, x.z)
  {
    var a := Raise(s, x.m, x.z);
    var b := RunM68k(a, x.c);
    NothingRunsMeanwhile(a, a.m68k, a.m68kMax + x.c.over, x.c.acts);
    StoppedStaysBelow(a, a.m68k, a.m68kMax + x.c.over, x.c.acts);
    DoAllKeepsLimits(a, a.m68k, a.m68kMax + x.c.over, x.c.acts);
    assert Stopped(b) && SameRuns(a, b);
    hide DoAll;
  }

  /** While it is stopped, catching up never takes the odometer past the limit. */
  lemma {:induction false} StoppedStaysBelow(s: State, time: int, end: int, acts: seq<Act>)
    requires KeepsStopped(s, acts)
    ensures var r := DoAll(s, time, end, acts); s.z80 <= r.z80 <= Max(s.z80, s.z80Max)
    decreases |acts|
  {
    if acts != [] {
      var t := Min(time + acts[0].gap, end);
      var r := Do(s, t, acts[0]);
      assert s.z80 <= r.z80 <= Max(s.z80, s.z80Max) && r.z80Max == s.z80Max && KeepsStopped(r, acts[1..]);
      hide Do;
      StoppedStaysBelow(r, t, end, acts[1..]);
    }
  }

  // -------------------------------------------------------------------- arbitration

  /** No cycle belongs to both. */
  predicate Apart(a: Span, b: Span) { Min(a.to, b.to) <= Max(a.from, b.from) }

  /** No cycle that the Z80 core was asked to execute belongs to a range in which its bus was held. */
  ghost predicate NoHeldCycleRan(t: Trace) {
    forall i, j :: 0 <= i < |t.ran| && 0 <= j < |t.held| ==> Apart(t.ran[i], t.held[j])
  }

  ghost predicate AllBefore(spans: seq<Span>, x: int)
  {
    forall i :: 0 <= i < |spans| ==> spans[i].from <= spans[i].to <= x
  }

  /** What keeps it that way: everything asked for lies behind the 68000, and behind the moment it took the bus it is
      holding; every held range lies behind the Z80's odometer. */
  ghost predicate Accounted(s: State) {
    && NoHeldCycleRan(s.trace)
    && AllBefore(s.trace.ran, s.trace.now / 2)
    && AllBefore(s.trace.held, s.z80)
    && (s.busreq ==> s.trace.since <= s.trace.now / 2 && AllBefore(s.trace.ran, s.trace.since))
  }

  lemma AllBeforeLater(spans: seq<Span>, x: int, y: int)
    requires AllBefore(spans, x) && x <= y
    ensures AllBefore(spans, y)
  {
  }

  lemma OneMoreRan(t: Trace, z: int, x: Span)
    requires NoHeldCycleRan(t) && AllBefore(t.held, z) && z == x.from
    ensures NoHeldCycleRan(t.(ran := t.ran + [x]))
  {
  }

  lemma OneMoreHeld(t: Trace, x: Span)
    requires NoHeldCycleRan(t) && AllBefore(t.ran, x.from)
    ensures NoHeldCycleRan(t.(held := t.held + [x]))
  {
  }

  /** Execution up to a time of the 68000 while it does not hold the bus, or up to the moment it takes it. */
  lemma ExecuteAccounts(s: State, n: nat, k: nat, bound: int)
    requires NoHeldCycleRan(s.trace) && AllBefore(s.trace.held, s.z80)
    requires AllBefore(s.trace.ran, bound) && s.z80 + n <= bound
    ensures var r := Execute(s, n, k);
            NoHeldCycleRan(r.trace) && AllBefore(r.trace.held, r.z80) && AllBefore(r.trace.ran, bound)
  {
    OneMoreRan(s.trace, s.z80, Span(s.z80, s.z80 + n));
    AllBeforeLater(s.trace.held, s.z80, s.z80 + n + k);
    hide NoHeldCycleRan;
  }

  lemma SyncAccounts(s: State, t: int, k: nat)
    requires Accounted(s) && s.trace.now <= t && !s.busreq
    ensures var r := Sync(s, t, false, k);
            NoHeldCycleRan(r.trace) && AllBefore(r.trace.held, r.z80) && AllBefore(r.trace.ran, t / 2) && !r.busreq
  {
    var n := Min(t / 2, s.z80Max) - s.z80;
    AllBeforeLater(s.trace.ran, s.trace.now / 2, t / 2);
    hide NoHeldCycleRan, AllBefore;
    if n > 0 {
      ExecuteAccounts(s, n, k, t / 2);
    }
  }

  lemma RequestAccounts(s: State, t: int, k: nat)
    requires Accounted(s) && s.trace.now <= t && !s.busreq
    ensures var r := Request(s, t, k);
            && NoHeldCycleRan(r.trace) && AllBefore(r.trace.held, r.z80) && AllBefore(r.trace.ran, t / 2)
            && r.busreq && r.trace.since == t / 2
  {
    SyncAccounts(s, t, k);
    AllBeforeLater(s.trace.ran, s.trace.now / 2, t / 2);
    hide NoHeldCycleRan, AllBefore;
  }

  lemma CancelAccounts(s: State, t: int)
    requires Accounted(s) && s.trace.now <= t && s.busreq && t / 2 <= Cancel(s, t).z80
    ensures var r := Cancel(s, t);
            NoHeldCycleRan(r.trace) && AllBefore(r.trace.held, r.z80) && AllBefore(r.trace.ran, t / 2) && !r.busreq
  {
    var r := Cancel(s, t);
    OneMoreHeld(s.trace, Span(s.trace.since, t / 2));
    AllBeforeLater(s.trace.ran, s.trace.now / 2, t / 2);
    AllBeforeLater(s.trace.held, s.z80, r.z80);
    hide NoHeldCycleRan;
  }

  /** Releases that did not account for what they closed are counted, and never uncounted. */
  lemma LateNeverFalls(s: State, t: int, a: Act)
    ensures Do(s, t, a).trace.late >= s.trace.late
    ensures a.ReleaseBus? && s.busreq ==>
              Do(s, t, a).trace.late == s.trace.late + if Do(s, t, a).z80 < t / 2 then 1 else 0
  {
  }

  lemma DoAccounts(s: State, t: int, a: Act)
    requires Accounted(s) && s.trace.now <= t && Do(s, t, a).trace.late == s.trace.late
    ensures Accounted(Do(s, t, a)) && Do(s, t, a).trace.now == t
  {
    LateNeverFalls(s, t, a);
    AllBeforeLater(s.trace.ran, s.trace.now / 2, t / 2);
    match a {
      case TakeBus(_, k) => if !s.busreq { RequestAccounts(s, t, k); }
      case ReleaseBus(_, _) => if s.busreq { CancelAccounts(s, t); }
      case ResetZ80(_, k) => if !s.busreq { SyncAccounts(s, t, k); }
      case StartZ80(_, _) =>
    }
    hide NoHeldCycleRan, AllBefore;
  }

  lemma {:induction false} DoAllAccounts(s: State, time: int, end: int, acts: seq<Act>)
    requires Accounted(s) && s.trace.now <= time <= end && DoAll(s, time, end, acts).trace.late == s.trace.late
    ensures var r := DoAll(s, time, end, acts); Accounted(r) && r.trace.now <= end
    decreases |acts|
  {
    if acts != [] {
      var t := Min(time + acts[0].gap, end);
      var r := Do(s, t, acts[0]);
      LateNeverFalls(s, t, acts[0]);
      LateStays(r, t, end, acts[1..]);
      hide Do, Accounted;
      DoAccounts(s, t, acts[0]);
      DoAllAccounts(r, t, end, acts[1..]);
    }
  }

  lemma {:induction false} LateStays(s: State, time: int, end: int, acts: seq<Act>)
    ensures DoAll(s, time, end, acts).trace.late >= s.trace.late
    decreases |acts|
  {
    if acts != [] {
      var t := Min(time + acts[0].gap, end);
      LateNeverFalls(s, t, acts[0]);
      hide Do;
      LateStays(Do(s, t, acts[0]), t, end, acts[1..]);
    }
  }

  lemma RunM68kAccounts(s: State, c: Script)
    requires Accounted(s) && s.trace.now == s.m68k && RunM68k(s, c).trace.late == s.trace.late
    ensures var r := RunM68k(s, c);
            && Accounted(r) && r.trace.now == r.m68k >= s.m68kMax && r.m68kMax == s.m68kMax && r.z80Max == s.z80Max
  {
    var n := s.m68kMax - s.m68k;
    if n > 0 {
      var end := s.m68k + n + c.over;
      DoAllAccounts(s, s.m68k, end, c.acts);
      var r := DoAll(s, s.m68k, end, c.acts);
      AllBeforeLater(r.trace.ran, r.trace.now / 2, end / 2);
      DoAllKeepsLimits(s, s.m68k, end, c.acts);
    }
    hide DoAll, NoHeldCycleRan, AllBefore;
  }

  lemma {:induction false} DoAllKeepsLimits(s: State, time: int, end: int, acts: seq<Act>)
    ensures var r := DoAll(s, time, end, acts); r.m68kMax == s.m68kMax && r.z80Max == s.z80Max
    decreases |acts|
  {
    if acts != [] {
      var t := Min(time + acts[0].gap, end);
      DoForward(s, t, acts[0], acts[0].k + 1);
      hide Do;
      DoAllKeepsLimits(Do(s, t, acts[0]), t, end, acts[1..]);
    }
  }

  lemma RunZ80Accounts(s: State, k: nat)
    requires Accounted(s) && 2 * s.z80Max <= s.trace.now
    ensures Accounted(RunZ80(s, k)) && RunZ80(s, k).trace.late == s.trace.late
  {
    var n := s.z80Max - s.z80;
    AllBeforeLater(s.trace.held, s.z80, Max(s.z80, s.z80Max));
    hide NoHeldCycleRan, AllBefore;
    if n > 0 && !s.busreq && !s.reset {
      ExecuteAccounts(s, n, k, s.trace.now / 2);
    }
  }

  lemma RunAccounts(s: State, x: Slice, k: nat)
    requires Accounted(s) && s.trace.now == s.m68k && StepsOn(s.m68kMax, s.z80Max, x, k) && 2 * x.z <= x.m
    requires Run(s, x).trace.late == s.trace.late
    ensures Accounted(Run(s, x)) && Run(s, x).trace.now == Run(s, x).m68k
  {
    var a := Raise(s, x.m, x.z);
    var b := RunM68k(a, x.c);
    var r := RunZ80(b, x.k);
    assert r.trace.late == b.trace.late && r.m68k == b.m68k && r.trace.now == b.trace.now;
    assert Accounted(a);
    hide RunM68k, RunZ80, Accounted;
    RunM68kAccounts(a, x.c);
    RunZ80Accounts(b, x.k);
  }

  lemma RunLateNeverFalls(s: State, x: Slice)
    ensures Run(s, x).trace.late >= s.trace.late
  {
    var a := Raise(s, x.m, x.z);
    LateStays(a, a.m68k, a.m68kMax + x.c.over, x.c.acts);
    hide DoAll;
  }

  lemma {:induction false} RunAllLateNeverFalls(s: State, xs: seq<Slice>)
    ensures RunAll(s, xs).trace.late >= s.trace.late
    decreases |xs|
  {
    if xs != [] {
      RunLateNeverFalls(s, xs[0]);
      hide Run;
      RunAllLateNeverFalls(Run(s, xs[0]), xs[1..]);
    }
  }

  /** The 68000 is never given less than twice what the Z80 is given. */
  ghost predicate Lagging(xs: seq<Slice>) { forall i :: 0 <= i < |xs| ==> 2 * xs[i].z <= xs[i].m }

  /** As long as no release was late, the Z80 has not been asked for a cycle in which its bus was held, and every held
      cycle lies behind its odometer. */
  lemma {:induction false} NotLateMeansAccounted(s: State, xs: seq<Slice>, k: nat)
    requires Accounted(s) && s.trace.now == s.m68k && AtLimits(s, k) && Steady(s, xs, k) && Lagging(xs)
    requires RunAll(s, xs).trace.late == s.trace.late
    ensures Accounted(RunAll(s, xs))
    decreases |xs|
  {
    if xs != [] {
      var r := Run(s, xs[0]);
      RunLateNeverFalls(s, xs[0]);
      RunAllLateNeverFalls(r, xs[1..]);
      RunReachesLimits(s, xs[0], k);
      SteadyFrom(Raise(s, xs[0].m, xs[0].z), r, xs[1..], k);
      hide Run, Accounted, AtLimits, StepsOn;
      RunAccounts(s, xs[0], k);
      NotLateMeansAccounted(r, xs[1..], k);
    }
  }

  // -------------------------------------------------------- releases in time, by the scripts

  function BusAfter(busreq: bool, a: Act): bool {
    match a
    case TakeBus(_, _) => true
    case ReleaseBus(_, _) => false
    case _ => busreq
  }

  function BusAfterAll(busreq: bool, acts: seq<Act>): bool
    decreases |acts|
  {
    if acts == [] then busreq else BusAfterAll(BusAfter(busreq, acts[0]), acts[1..])
  }

  /** Each release of a held bus comes no more than `slack` Z80 cycles after the limit z. */
  predicate ActsInTime(busreq: bool, time: int, end: int, z: int, slack: nat, acts: seq<Act>)
    decreases |acts|
  {
    acts == [] ||
    var t := Min(time + acts[0].gap, end);
    && (busreq && acts[0].ReleaseBus? ==> t / 2 <= z + slack)
    && ActsInTime(BusAfter(busreq, acts[0]), t, end, z, slack, acts[1..])
  }

  /** Where a slice takes the 68000, and whether it holds the bus then. */
  function NextM68k(m68k: int, x: Slice): int { if m68k < x.m then x.m + x.c.over else m68k }

  function NextBus(busreq: bool, m68k: int, x: Slice): bool
  {
    if m68k < x.m then BusAfterAll(busreq, x.c.acts) else busreq
  }

  predicate SliceInTime(busreq: bool, m68k: int, x: Slice, slack: nat) {
    m68k < x.m ==> ActsInTime(busreq, m68k, x.m + x.c.over, x.z, slack, x.c.acts)
  }

  /** What a 68000 program has to keep to: it releases the bus before the Z80's limit of the slice. The Z80, its core
      and its odometer do not come into it. */
  predicate InTime(busreq: bool, m68k: int, xs: seq<Slice>, slack: nat)
    decreases |xs|
  {
    xs == [] ||
    (SliceInTime(busreq, m68k, xs[0], slack)
     && InTime(NextBus(busreq, m68k, xs[0]), NextM68k(m68k, xs[0]), xs[1..], slack))
  }

  lemma DoBus(s: State, t: int, a: Act)
    ensures Do(s, t, a).busreq == BusAfter(s.busreq, a)
  {
    hide Min, Max;
  }

  /** Without overshoot to help or hinder, a release is late exactly when it comes after the limit; an overshoot of less
      than k can hide less than k cycles. */
  lemma DoLate(s: State, t: int, a: Act, k: nat)
    requires k > 0 && s.z80 < s.z80Max + k
    ensures var late := s.busreq && a.ReleaseBus?;
            && (late && t / 2 <= s.z80Max ==> Do(s, t, a).trace.late == s.trace.late)
            && (late && t / 2 >= s.z80Max + k ==> Do(s, t, a).trace.late == s.trace.late + 1)
            && (!late ==> Do(s, t, a).trace.late == s.trace.late)
  {
  }

  lemma {:induction false} DoAllInTime(s: State, time: int, end: int, acts: seq<Act>, k: nat)
    requires k > 0 && s.z80 < s.z80Max + k && forall i :: 0 <= i < |acts| ==> acts[i].k < k
    ensures var r := DoAll(s, time, end, acts);
            && r.busreq == BusAfterAll(s.busreq, acts)
            && (ActsInTime(s.busreq, time, end, s.z80Max, 0, acts) ==> r.trace.late == s.trace.late)
            && (r.trace.late == s.trace.late ==> ActsInTime(s.busreq, time, end, s.z80Max, k - 1, acts))
    decreases |acts|
  {
    if acts != [] {
      var t := Min(time + acts[0].gap, end);
      var r := Do(s, t, acts[0]);
      DoBus(s, t, acts[0]);
      DoLate(s, t, acts[0], k);
      DoForward(s, t, acts[0], k);
      LateStays(r, t, end, acts[1..]);
      hide Do, BusAfter, Conserved;
      DoAllInTime(r, t, end, acts[1..], k);
    }
  }

  lemma RunInTime(s: State, x: Slice, k: nat)
    requires AtLimits(s, k) && StepsOn(s.m68kMax, s.z80Max, x, k)
    ensures var r := Run(s, x);
            && r.busreq == NextBus(s.busreq, s.m68k, x) && r.m68k == NextM68k(s.m68k, x)
            && (SliceInTime(s.busreq, s.m68k, x, 0) ==> r.trace.late == s.trace.late)
            && (r.trace.late == s.trace.late ==> SliceInTime(s.busreq, s.m68k, x, k - 1))
  {
    var a := Raise(s, x.m, x.z);
    if s.m68k < x.m {
      DoAllInTime(a, s.m68k, x.m + x.c.over, x.c.acts, k);
    }
    hide DoAll, ActsInTime, BusAfterAll;
  }

  /** No release is late if every release is in time; and if none was late, every release was in time but for less than
      the overshoot of the cores. Cores that do not overshoot, k being 1, make this an equivalence. */
  lemma {:induction false} LateByTheScripts(s: State, xs: seq<Slice>, k: nat)
    requires AtLimits(s, k) && Steady(s, xs, k)
    ensures InTime(s.busreq, s.m68k, xs, 0) ==> RunAll(s, xs).trace.late == s.trace.late
    ensures RunAll(s, xs).trace.late == s.trace.late ==> InTime(s.busreq, s.m68k, xs, k - 1)
    decreases |xs|
  {
    if xs != [] {
      var r := Run(s, xs[0]);
      RunInTime(s, xs[0], k);
      RunReachesLimits(s, xs[0], k);
      RunLateNeverFalls(s, xs[0]);
      RunAllLateNeverFalls(r, xs[1..]);
      SteadyFrom(Raise(s, xs[0].m, xs[0].z), r, xs[1..], k);
      hide Run, AtLimits, StepsOn, SliceInTime, NextBus, NextM68k, Conserved;
      LateByTheScripts(r, xs[1..], k);
    }
  }

  /** Over every run of slices, with every behaviour of the cores and every interleaving of BUSREQ and RESET writes in
      which the bus is released in time: the Z80 is never asked for a cycle in which its bus was held, and every held
      cycle lies behind its odometer. */
  lemma BusIsRespected(s: State, xs: seq<Slice>, k: nat)
    requires Accounted(s) && s.trace.now == s.m68k && AtLimits(s, k) && Steady(s, xs, k) && Lagging(xs)
    requires InTime(s.busreq, s.m68k, xs, 0)
    ensures Accounted(RunAll(s, xs)) && NoHeldCycleRan(RunAll(s, xs).trace)
  {
    LateByTheScripts(s, xs, k);
    NotLateMeansAccounted(s, xs, k);
    hide NoHeldCycleRan, AllBefore, RunAll, AtLimits, Steady, Lagging, InTime;
  }

  // -------------------------------------------------------------- when it is not kept

  /** A release is late exactly when the 68000 is past the limit of the slice by then: the catch-up is clamped. */
  lemma ReleaseIsLateExactlyWhen(s: State, t: int)
    requires s.busreq
    ensures Cancel(s, t).trace.late == s.trace.late + 1 <==> t / 2 > Max(s.z80, s.z80Max)
    ensures Cancel(s, t).trace.late == s.trace.late <==> t / 2 <= Max(s.z80, s.z80Max)
    ensures t / 2 > Max(s.z80, s.z80Max) ==> Cancel(s, t).z80 == Max(s.z80, s.z80Max)
  {
  }

  /** Held cycles that are still in front of the odometer. */
  ghost predicate Unpaid(s: State, j: nat) {
    j < |s.trace.held| && s.trace.held[j].from < s.trace.held[j].to && s.z80 < s.trace.held[j].to
  }

  /** A range the core was asked for meets the held range j. */
  ghost predicate Meets(t: Trace, j: nat)
  {
    j < |t.held| && exists i :: 0 <= i < |t.ran| && !Apart(t.ran[i], t.held[j])
  }

  /** Whatever asks the core for n cycles then asks for held ones exactly when it reaches the moment of the taking. */
  lemma ExecuteMeetsHeld(s: State, j: nat, n: nat, k: nat)
    requires Unpaid(s, j) && n > 0
    ensures var r := Execute(s, n, k).trace;
            && r.held == s.trace.held && |r.ran| == |s.trace.ran| + 1
            && (!Apart(r.ran[|s.trace.ran|], r.held[j]) <==> s.z80 + n > s.trace.held[j].from)
            && (Meets(r, j) <==> Meets(s.trace, j) || s.z80 + n > s.trace.held[j].from)
  {
    var r := Execute(s, n, k).trace;
    assert r.ran[|s.trace.ran|] == Span(s.z80, s.z80 + n);
    assert forall i :: 0 <= i < |s.trace.ran| ==> r.ran[i] == s.trace.ran[i];
  }

  /** A record only grows. */
  ghost predicate Grows(a: Trace, b: Trace) { a.ran <= b.ran && a.held <= b.held }

  lemma MeetsStays(a: Trace, b: Trace, j: nat)
    requires Grows(a, b) && Meets(a, j)
    ensures Meets(b, j) && !NoHeldCycleRan(b)
  {
    var i :| 0 <= i < |a.ran| && !Apart(a.ran[i], a.held[j]);
    assert b.ran[i] == a.ran[i] && b.held[j] == a.held[j];
  }

  lemma DoGrows(s: State, t: int, a: Act)
    ensures Grows(s.trace, Do(s, t, a).trace)
  {
  }

  lemma {:induction false} DoAllGrows(s: State, time: int, end: int, acts: seq<Act>)
    ensures Grows(s.trace, DoAll(s, time, end, acts).trace)
    decreases |acts|
  {
    if acts != [] {
      var t := Min(time + acts[0].gap, end);
      DoGrows(s, t, acts[0]);
      hide Do;
      DoAllGrows(Do(s, t, acts[0]), t, end, acts[1..]);
    }
  }

  lemma RunGrows(s: State, x: Slice)
    ensures Grows(s.trace, Run(s, x).trace)
  {
    DoAllGrows(Raise(s, x.m, x.z), s.m68k, x.m + x.c.over, x.c.acts);
    hide DoAll;
  }

  lemma {:induction false} RunAllGrows(s: State, xs: seq<Slice>)
    ensures Grows(s.trace, RunAll(s, xs).trace)
    decreases |xs|
  {
    if xs != [] {
      RunGrows(s, xs[0]);
      hide Run;
      RunAllGrows(Run(s, xs[0]), xs[1..]);
    }
  }

  lemma SameMeets(a: Trace, b: Trace, j: nat)
    requires a.ran == b.ran && j < |a.held| && a.held <= b.held
    ensures Meets(a, j) <==> Meets(b, j)
  {
    hide Apart;
  }

  /** A hold that is over, of which no cycle has been asked for. */
  ghost predicate Open(s: State, j: nat) {
    j < |s.trace.held| && s.trace.held[j].to <= s.trace.now / 2 && !Meets(s.trace, j)
  }

  /** Cycles of it lie between the odometer and the limit of the slice. */
  ghost predicate Ahead(s: State, j: nat)
    requires j < |s.trace.held|
  {
    !Apart(Span(s.z80, s.z80Max), s.trace.held[j])
  }

  /** Once a hold is over, the first catching up takes the odometer past it, or to the limit: either by execution, and
      then the core is asked for what lies ahead of it, or not. */
  lemma SyncMeets(s: State, t: int, fake: bool, k: nat, j: nat)
    requires j < |s.trace.held| && !Meets(s.trace, j) && s.trace.held[j].to <= t / 2
    ensures var r := Sync(s, t, fake, k);
            && r.trace.held == s.trace.held && (Meets(r.trace, j) <==> !fake && Ahead(s, j)) && !Ahead(r, j)
  {
    var n := Min(t / 2, s.z80Max) - s.z80;
    if n > 0 {
      if fake { SameMeets(s.trace, Fake(s, n).trace, j); } else { ExecuteMeets(s, n, k, j); }
    }
    hide Meets, Execute;
  }

  lemma ExecuteMeets(s: State, n: nat, k: nat, j: nat)
    requires j < |s.trace.held| && !Meets(s.trace, j) && n > 0
    ensures var r := Execute(s, n, k);
            && r.trace.held == s.trace.held && r.z80 == s.z80 + n + k && r.z80Max == s.z80Max
            && (Meets(r.trace, j) <==> !Apart(Span(s.z80, s.z80 + n), s.trace.held[j]))
  {
    var r := Execute(s, n, k).trace;
    assert r.ran[|s.trace.ran|] == Span(s.z80, s.z80 + n);
    assert forall i :: 0 <= i < |s.trace.ran| ==> r.ran[i] == s.trace.ran[i];
    hide Apart;
  }

  /** Whether a slice executes what lies in front of the odometer, rather than passing it over: the first thing that
      makes the Z80 catch up finds it running. */
  predicate Runs(busreq: bool, reset: bool, acts: seq<Act>)
    decreases |acts|
  {
    if acts == [] then !busreq && !reset
    else
      match acts[0]
      case TakeBus(_, _) => (!busreq && !reset) || Runs(true, reset, acts[1..])
      case ReleaseBus(_, _) => !busreq && Runs(false, reset, acts[1..])
      case ResetZ80(_, _) => (!busreq && !reset) || Runs(busreq, true, acts[1..])
      case StartZ80(_, _) => Runs(busreq, false, acts[1..])
  }

  /** A Z80 that is running when a slice begins executes it, whatever the program does. */
  lemma {:induction false} RunningRuns(acts: seq<Act>)
    ensures Runs(false, false, acts)
    decreases |acts|
  {
    if acts != [] { RunningRuns(acts[1..]); }
  }

  lemma StopMeets(s: State, t: int, a: Act, j: nat)
    requires Open(s, j) && s.trace.now <= t && !s.busreq && !s.reset && (a.TakeBus? || a.ResetZ80?)
    ensures var r := Do(s, t, a);
            && r.trace.held == s.trace.held && r.trace.now == t && r.z80Max == s.z80Max
            && (Meets(r.trace, j) <==> Ahead(s, j)) && !Ahead(r, j)
  {
    var q := if a.TakeBus? then s.(busreq := true, trace := s.trace.(since := t / 2)) else s;
    SameMeets(s.trace, q.trace, j);
    SyncMeets(q, t, false, a.k, j);
    SameMeets(Sync(q, t, false, a.k).trace, Do(s, t, a).trace, j);
    hide Meets, Apart;
  }

  lemma ReleaseMeets(s: State, t: int, a: Act, j: nat)
    requires Open(s, j) && s.trace.now <= t && s.busreq && a.ReleaseBus?
    ensures var r := Do(s, t, a);
            && s.trace.held <= r.trace.held && r.trace.now == t && r.z80Max == s.z80Max
            && !Meets(r.trace, j) && !Ahead(r, j)
  {
    var q := s.(busreq := false);
    SyncMeets(q, t, true, 0, j);
    SameMeets(Sync(q, t, true, 0).trace, Do(s, t, a).trace, j);
    hide Meets, Apart;
  }

  lemma OtherMeets(s: State, t: int, a: Act, j: nat)
    requires Open(s, j) && s.trace.now <= t
    requires a.StartZ80? || (a.ReleaseBus? && !s.busreq) || ((a.TakeBus? || a.ResetZ80?) && (s.busreq || s.reset))
    ensures var r := Do(s, t, a);
            && r.trace.held == s.trace.held && r.trace.now == t && r.z80Max == s.z80Max && r.z80 == s.z80
            && !Meets(r.trace, j) && (Ahead(r, j) <==> Ahead(s, j))
  {
    SameMeets(s.trace, Do(s, t, a).trace, j);
    hide Meets, Apart;
  }

  /** One bus write either asks for held cycles at once, or leaves the question as it was. */
  lemma DoMeets(s: State, t: int, acts: seq<Act>, j: nat)
    requires acts != [] && Open(s, j) && s.trace.now <= t
    ensures var r := Do(s, t, acts[0]);
            && s.trace.held <= r.trace.held && r.z80Max == s.z80Max && r.trace.now == t
            && (Meets(r.trace, j) ==> Ahead(s, j) && Runs(s.busreq, s.reset, acts))
            && (!Meets(r.trace, j) ==>
                  Open(r, j)
                  && ((Ahead(r, j) && Runs(r.busreq, r.reset, acts[1..]))
                      <==> (Ahead(s, j) && Runs(s.busreq, s.reset, acts))))
  {
    var a := acts[0];
    DoWires(s, t, a);
    hide Meets, Do, Ahead;
    if s.busreq && a.ReleaseBus? {
      ReleaseMeets(s, t, a, j);
    } else if !s.busreq && !s.reset && (a.TakeBus? || a.ResetZ80?) {
      StopMeets(s, t, a, j);
    } else {
      OtherMeets(s, t, a, j);
    }
  }

  lemma {:induction false} DoAllMeets(s: State, time: int, end: int, acts: seq<Act>, k: nat, j: nat)
    requires Open(s, j) && s.trace.now <= time <= end
    ensures Meets(RunZ80(DoAll(s, time, end, acts), k).trace, j) <==> Ahead(s, j) && Runs(s.busreq, s.reset, acts)
    decreases |acts|
  {
    if acts == [] {
      LimitMeets(s, k, j);
      hide RunZ80, Meets, Ahead;
    } else {
      var t := Min(time + acts[0].gap, end);
      var r := Do(s, t, acts[0]);
      DoMeets(s, t, acts, j);
      hide Do, Meets, Ahead, Runs, RunZ80, Open;
      if Meets(r.trace, j) {
        DoAllGrows(r, t, end, acts[1..]);
        RunZ80Grows(DoAll(r, t, end, acts[1..]), k);
        GrowsOn(r.trace, DoAll(r, t, end, acts[1..]).trace, RunZ80(DoAll(r, t, end, acts[1..]), k).trace);
        MeetsStays(r.trace, RunZ80(DoAll(r, t, end, acts[1..]), k).trace, j);
      } else {
        DoAllMeets(r, t, end, acts[1..], k, j);
      }
    }
  }

  lemma LimitMeets(s: State, k: nat, j: nat)
    requires Open(s, j)
    ensures Meets(RunZ80(s, k).trace, j) <==> Ahead(s, j) && !s.busreq && !s.reset
  {
    var n := s.z80Max - s.z80;
    if n > 0 {
      ExecuteMeets(s, n, k, j);
      SameMeets(s.trace, Fake(s, n).trace, j);
    }
    hide Meets, Execute;
  }

  lemma RunZ80Grows(s: State, k: nat)
    ensures Grows(s.trace, RunZ80(s, k).trace)
  {
  }

  lemma GrowsOn(a: Trace, b: Trace, c: Trace)
    requires Grows(a, b) && Grows(b, c)
    ensures Grows(a, c)
  {
  }

  function ActsOf(m68k: int, x: Slice): seq<Act> { if m68k < x.m then x.c.acts else [] }

  /** One slice, whatever the cores and the bus do in it and whether or not the Z80 is running: cycles of a hold that is
      over are asked for if and only if some lie between the odometer and the limit, and the slice executes them. */
  lemma HeldCyclesRunExactlyWhen(s: State, x: Slice, j: nat)
    requires Open(s, j) && s.trace.now == s.m68k
    ensures Meets(Run(s, x).trace, j)
            <==> Runs(s.busreq, s.reset, ActsOf(s.m68k, x)) && !Apart(Span(s.z80, x.z), s.trace.held[j])
  {
    var a := Raise(s, x.m, x.z);
    SameMeets(s.trace, a.trace, j);
    if s.m68k < x.m {
      var end := x.m + x.c.over;
      DoAllMeets(a, a.m68k, end, x.c.acts, x.k, j);
      var r := DoAll(a, a.m68k, end, x.c.acts);
      DoAllGrows(a, a.m68k, end, x.c.acts);
      SameRunZ80(r, end, x.k, j);
    } else {
      LimitMeets(a, x.k, j);
    }
    hide DoAll, Meets, Apart, RunZ80;
  }

  lemma SameRunZ80(r: State, end: int, k: nat, j: nat)
    requires j < |r.trace.held|
    ensures Meets(RunZ80(r.(m68k := end, trace := r.trace.(now := end)), k).trace, j) <==> Meets(RunZ80(r, k).trace, j)
  {
    RunZ80Grows(r, k);
    SameMeets(RunZ80(r, k).trace, RunZ80(r.(m68k := end, trace := r.trace.(now := end)), k).trace, j);
    hide Meets;
  }

  // ------------------------------------------------------- held cycles, by the scripts

  /** What the 68000's program does to the Z80: the bus, the reset, and since when the bus has been held. */
  datatype Wires = Wires(busreq: bool, reset: bool, since: int)

  function WiresOf(s: State): Wires { Wires(s.busreq, s.reset, s.trace.since) }

  function WiresAfter(l: Wires, t: int, a: Act): Wires {
    match a
    case TakeBus(_, _) => if l.busreq then l else l.(busreq := true, since := t / 2)
    case ReleaseBus(_, _) => l.(busreq := false)
    case ResetZ80(_, _) => l.(reset := true)
    case StartZ80(_, _) => l.(reset := false)
  }

  function WiresAfterAll(l: Wires, time: int, end: int, acts: seq<Act>): Wires
    decreases |acts|
  {
    if acts == [] then l
    else
      var t := Min(time + acts[0].gap, end);
      WiresAfterAll(WiresAfter(l, t, acts[0]), t, end, acts[1..])
  }

  /** The hold that a bus write ends. */
  function Ended(l: Wires, t: int, a: Act): seq<Span>
  {
    if a.ReleaseBus? && l.busreq then [Span(l.since, t / 2)] else []
  }

  function EndedAll(l: Wires, time: int, end: int, acts: seq<Act>): seq<Span>
    decreases |acts|
  {
    if acts == [] then []
    else
      var t := Min(time + acts[0].gap, end);
      Ended(l, t, acts[0]) + EndedAll(WiresAfter(l, t, acts[0]), t, end, acts[1..])
  }

  lemma DoWires(s: State, t: int, a: Act)
    ensures var r := Do(s, t, a);
            && WiresOf(r) == WiresAfter(WiresOf(s), t, a) && r.trace.held == s.trace.held + Ended(WiresOf(s), t, a)
  {
  }

  lemma {:induction false} DoAllWires(s: State, time: int, end: int, acts: seq<Act>)
    ensures var r := DoAll(s, time, end, acts);
            && WiresOf(r) == WiresAfterAll(WiresOf(s), time, end, acts)
            && r.trace.held == s.trace.held + EndedAll(WiresOf(s), time, end, acts)
    decreases |acts|
  {
    if acts != [] {
      var t := Min(time + acts[0].gap, end);
      DoWires(s, t, acts[0]);
      hide Do, WiresAfter, Ended, WiresOf;
      DoAllWires(Do(s, t, acts[0]), t, end, acts[1..]);
    }
  }

  /** The lines after a slice, and the holds that ended in it. */
  function NextWires(l: Wires, m68k: int, x: Slice): Wires { WiresAfterAll(l, m68k, x.m + x.c.over, ActsOf(m68k, x)) }

  function Holds(l: Wires, m68k: int, x: Slice): seq<Span> { EndedAll(l, m68k, x.m + x.c.over, ActsOf(m68k, x)) }

  lemma RunWires(s: State, x: Slice)
    requires s.trace.now == s.m68k
    ensures var r := Run(s, x);
            && WiresOf(r) == NextWires(WiresOf(s), s.m68k, x)
            && r.trace.held == s.trace.held + Holds(WiresOf(s), s.m68k, x)
            && r.m68k == r.trace.now == NextM68k(s.m68k, x) >= s.m68k && r.z80Max == x.z
  {
    var a := Raise(s, x.m, x.z);
    DoAllWires(a, a.m68k, x.m + x.c.over, x.c.acts);
    DoAllKeepsLimits(a, a.m68k, x.m + x.c.over, x.c.acts);
    NoWires(WiresOf(s), s.m68k, x.m + x.c.over);
    hide DoAll, WiresAfterAll, EndedAll;
  }

  lemma NoWires(l: Wires, time: int, end: int)
    ensures WiresAfterAll(l, time, end, []) == l && EndedAll(l, time, end, []) == []
  {
  }

  /** In some slice a program and its limits ask for cycles of a hold: what lies between the limit before, with `slack`
      cycles on top, and the limit of the slice is executed and meets it. */
  predicate Caught(l: Wires, m68k: int, z: int, xs: seq<Slice>, h: Span, slack: nat)
    decreases |xs|
  {
    xs != [] &&
    (|| (Runs(l.busreq, l.reset, ActsOf(m68k, xs[0])) && !Apart(Span(z + slack, xs[0].z), h))
     || Caught(NextWires(l, m68k, xs[0]), NextM68k(m68k, xs[0]), xs[0].z, xs[1..], h, slack))
  }

  /** What becomes of a hold that is over, in every run that follows: it is executed only if it is caught by the scripts
      and the limits, and if it is caught with room for the overshoot of the cores, it is. */
  lemma {:induction false} HoldIsExecuted(s: State, xs: seq<Slice>, j: nat, k: nat)
    requires Open(s, j) && s.trace.now == s.m68k && AtLimits(s, k) && Steady(s, xs, k)
    ensures Meets(RunAll(s, xs).trace, j) ==> Caught(WiresOf(s), s.m68k, s.z80Max, xs, s.trace.held[j], 0)
    ensures Caught(WiresOf(s), s.m68k, s.z80Max, xs, s.trace.held[j], k - 1) ==> Meets(RunAll(s, xs).trace, j)
    decreases |xs|
  {
    if xs != [] {
      var x, r := xs[0], Run(s, xs[0]);
      HeldCyclesRunExactlyWhen(s, x, j);
      RunWires(s, x);
      RunReachesLimits(s, x, k);
      RunAllGrows(r, xs[1..]);
      SteadyFrom(Raise(s, x.m, x.z), r, xs[1..], k);
      hide Run, Meets, Runs, NextWires, NextM68k, ActsOf, StepsOn, Conserved;
      if Meets(r.trace, j) {
        MeetsStays(r.trace, RunAll(r, xs[1..]).trace, j);
      } else {
        HoldIsExecuted(r, xs[1..], j, k);
      }
    }
  }

  /** Every execution and every hold lies behind the 68000, and nothing has been executed since it took the bus. */
  ghost predicate Orderly(s: State) {
    && AllBefore(s.trace.ran, s.trace.now / 2) && AllBefore(s.trace.held, s.trace.now / 2)
    && (s.busreq ==> s.trace.since <= s.trace.now / 2 && AllBefore(s.trace.ran, s.trace.since))
  }

  lemma SyncOrderly(s: State, t: int, fake: bool, k: nat)
    requires AllBefore(s.trace.ran, t / 2)
    ensures var r := Sync(s, t, fake, k);
            && AllBefore(r.trace.ran, t / 2) && r.trace.held == s.trace.held && (fake ==> r.trace.ran == s.trace.ran)
  {
  }

  lemma DoOrderly(s: State, t: int, a: Act)
    requires Orderly(s) && s.trace.now <= t
    ensures Orderly(Do(s, t, a)) && Do(s, t, a).trace.now == t
  {
    AllBeforeLater(s.trace.ran, s.trace.now / 2, t / 2);
    AllBeforeLater(s.trace.held, s.trace.now / 2, t / 2);
    match a {
      case TakeBus(_, k) => SyncOrderly(s.(busreq := true, trace := s.trace.(since := t / 2)), t, false, k);
      case ReleaseBus(_, _) =>
        SyncOrderly(s.(busreq := false), t, true, 0);
        if s.busreq { OneMore(s.trace.held, Span(s.trace.since, t / 2), t / 2); }
      case ResetZ80(_, k) => SyncOrderly(s, t, false, k);
      case StartZ80(_, _) =>
    }
    hide AllBefore, Sync;
  }

  lemma OneMore(spans: seq<Span>, x: Span, bound: int)
    requires AllBefore(spans, bound) && x.from <= x.to <= bound
    ensures AllBefore(spans + [x], bound)
  {
  }

  /** A hold begins behind all that was executed, and when it ends the odometer has passed it or is at the limit: its
      own slice does not ask for it. */
  lemma NewHold(s: State, t: int, a: Act)
    requires Orderly(s) && s.trace.now <= t && s.busreq && a.ReleaseBus?
    ensures var r, j := Do(s, t, a), |s.trace.held|; Open(r, j) && !Ahead(r, j)
  {
    var r, j := Do(s, t, a), |s.trace.held|;
    assert r.trace.held[j] == Span(s.trace.since, t / 2) && r.trace.ran == s.trace.ran;
    assert !Meets(r.trace, j);
    hide Meets, AllBefore;
  }

  lemma {:induction false} NewHolds(s: State, time: int, end: int, acts: seq<Act>, k: nat, j: nat)
    requires Orderly(s) && s.trace.now <= time <= end && |s.trace.held| <= j < |DoAll(s, time, end, acts).trace.held|
    ensures !Meets(RunZ80(DoAll(s, time, end, acts), k).trace, j)
    decreases |acts|
  {
    if acts != [] {
      var t := Min(time + acts[0].gap, end);
      var r := Do(s, t, acts[0]);
      DoWires(s, t, acts[0]);
      DoOrderly(s, t, acts[0]);
      if s.busreq && acts[0].ReleaseBus? { NewHold(s, t, acts[0]); }
      hide Do, Orderly, Meets, Ahead, RunZ80, Open, Runs;
      if j < |r.trace.held| {
        DoAllMeets(r, t, end, acts[1..], k, j);
      } else {
        NewHolds(r, t, end, acts[1..], k, j);
      }
    }
  }

  lemma {:induction false} DoAllOrderly(s: State, time: int, end: int, acts: seq<Act>)
    requires Orderly(s) && s.trace.now <= time <= end
    ensures Orderly(DoAll(s, time, end, acts)) && DoAll(s, time, end, acts).trace.now <= end
    decreases |acts|
  {
    if acts != [] {
      var t := Min(time + acts[0].gap, end);
      DoOrderly(s, t, acts[0]);
      hide Do, Orderly;
      DoAllOrderly(Do(s, t, acts[0]), t, end, acts[1..]);
    }
  }

  lemma RunZ80Orderly(s: State, k: nat)
    requires Orderly(s) && 2 * s.z80Max <= s.trace.now
    ensures Orderly(RunZ80(s, k))
  {
    if !s.busreq && s.z80 < s.z80Max { OneMore(s.trace.ran, Span(s.z80, s.z80Max), s.trace.now / 2); }
    hide AllBefore;
  }

  lemma LaterOrderly(s: State, end: int)
    requires Orderly(s) && s.trace.now <= end
    ensures Orderly(s.(m68k := end, trace := s.trace.(now := end)))
  {
    AllBeforeLater(s.trace.ran, s.trace.now / 2, end / 2);
    AllBeforeLater(s.trace.held, s.trace.now / 2, end / 2);
    hide AllBefore;
  }

  /** After a slice everything is in order again, and no hold that ended in it has been asked for. */
  lemma RunOrderly(s: State, x: Slice)
    requires Orderly(s) && s.trace.now == s.m68k && 2 * x.z <= x.m
    ensures Orderly(Run(s, x))
    ensures forall j: nat :: |s.trace.held| <= j < |Run(s, x).trace.held| ==> !Meets(Run(s, x).trace, j)
  {
    var a := Raise(s, x.m, x.z);
    var end := x.m + x.c.over;
    var r := DoAll(a, a.m68k, end, x.c.acts);
    assert Orderly(a) && RunM68k(a, x.c) == if s.m68k < x.m then r.(m68k := end, trace := r.trace.(now := end)) else a;
    RunZ80Grows(r, x.k);
    hide Orderly, Meets, DoAll, RunM68k;
    if s.m68k < x.m {
      DoAllOrderly(a, a.m68k, end, x.c.acts);
      DoAllKeepsLimits(a, a.m68k, end, x.c.acts);
      LaterOrderly(r, end);
      forall j: nat | |s.trace.held| <= j < |Run(s, x).trace.held| ensures !Meets(Run(s, x).trace, j) {
        NewHolds(a, a.m68k, end, x.c.acts, x.k, j);
        SameRunZ80(r, end, x.k, j);
      }
    }
    RunZ80Orderly(RunM68k(a, x.c), x.k);
  }

  /** No hold that ends in one of the slices is caught by what follows it. */
  predicate Kept(l: Wires, m68k: int, z: int, xs: seq<Slice>, slack: nat)
    decreases |xs|
  {
    xs == [] ||
    (var l', m', hs := NextWires(l, m68k, xs[0]), NextM68k(m68k, xs[0]), Holds(l, m68k, xs[0]);
     && (forall i :: 0 <= i < |hs| ==> !Caught(l', m', xs[0].z, xs[1..], hs[i], slack))
     && Kept(l', m', xs[0].z, xs[1..], slack))
  }

  lemma NoHeldCycleMeans(t: Trace)
    ensures NoHeldCycleRan(t) <==> forall j: nat :: j < |t.held| ==> !Meets(t, j)
  {
    hide Apart;
    if forall j: nat :: j < |t.held| ==> !Meets(t, j) {
      forall i, j: nat | 0 <= i < |t.ran| && j < |t.held| ensures Apart(t.ran[i], t.held[j]) {
        assert !Meets(t, j);
      }
    }
  }

  /** None of the holds that ended between s and r has been asked for. */
  ghost predicate NoneOf(s: State, r: State) {
    forall j: nat :: |s.trace.held| <= j < |r.trace.held| ==> !Meets(r.trace, j)
  }

  lemma NoneAtOnce(s: State, xs: seq<Slice>)
    ensures xs == [] ==> NoneOf(s, RunAll(s, xs)) && Kept(WiresOf(s), s.m68k, s.z80Max, xs, 0)
  {
  }

  /** A slice takes everything to where the next one begins. */
  lemma NextSlice(s: State, xs: seq<Slice>, k: nat)
    requires xs != [] && Orderly(s) && s.trace.now == s.m68k && AtLimits(s, k) && Steady(s, xs, k) && Lagging(xs)
    ensures var r := Run(s, xs[0]);
            && Orderly(r) && r.trace.now == r.m68k && AtLimits(r, k) && Steady(r, xs[1..], k) && Lagging(xs[1..])
            && Grows(s.trace, r.trace) && Grows(r.trace, RunAll(s, xs).trace) && RunAll(s, xs) == RunAll(r, xs[1..])
  {
    var x, r := xs[0], Run(s, xs[0]);
    RunWires(s, x);
    RunReachesLimits(s, x, k);
    SteadyFrom(Raise(s, x.m, x.z), r, xs[1..], k);
    RunOrderly(s, x);
    RunAllGrows(r, xs[1..]);
    RunGrows(s, x);
    hide Run, Orderly, AtLimits, StepsOn, Conserved, Meets, Grows, NextWires, Holds, NextM68k, WiresOf;
  }

  lemma HeldBehind(s: State, j: nat)
    requires Orderly(s) && j < |s.trace.held| && !Meets(s.trace, j)
    ensures Open(s, j)
  {
    assert s.trace.held[j].to <= s.trace.now / 2;
    hide Meets;
  }

  /** A hold that ends in the first slice, and what becomes of it after that. */
  lemma HoldOfSlice(s: State, xs: seq<Slice>, k: nat, j: nat)
    requires xs != [] && Orderly(s) && s.trace.now == s.m68k && AtLimits(s, k) && Steady(s, xs, k) && Lagging(xs)
    requires |s.trace.held| <= j < |Run(s, xs[0]).trace.held|
    ensures var r, end := Run(s, xs[0]), RunAll(s, xs);
            && (Meets(end.trace, j) ==> Caught(WiresOf(r), r.m68k, r.z80Max, xs[1..], r.trace.held[j], 0))
            && (Caught(WiresOf(r), r.m68k, r.z80Max, xs[1..], r.trace.held[j], k - 1) ==> Meets(end.trace, j))
  {
    assert 2 * xs[0].z <= xs[0].m;
    hide *;
    NextSlice(s, xs, k);
    RunOrderly(s, xs[0]);
    HeldBehind(Run(s, xs[0]), j);
    HoldIsExecuted(Run(s, xs[0]), xs[1..], j, k);
  }

  /** No hold from number n on is caught. */
  ghost predicate NoneCaught(l: Wires, m68k: int, z: int, xs: seq<Slice>, held: seq<Span>, n: nat, slack: nat) {
    forall j: nat :: n <= j < |held| ==> !Caught(l, m68k, z, xs, held[j], slack)
  }

  lemma HoldsOfSlice(s: State, xs: seq<Slice>, k: nat)
    requires xs != [] && Orderly(s) && s.trace.now == s.m68k && AtLimits(s, k) && Steady(s, xs, k) && Lagging(xs)
    ensures var r, n, end := Run(s, xs[0]), |s.trace.held|, RunAll(s, xs);
      && (NoneOf(r, end) && NoneCaught(WiresOf(r), r.m68k, r.z80Max, xs[1..], r.trace.held, n, 0) ==> NoneOf(s, end))
      && (NoneOf(s, end) ==>
                NoneOf(r, end) && NoneCaught(WiresOf(r), r.m68k, r.z80Max, xs[1..], r.trace.held, n, k - 1))
  {
    var r, n, end := Run(s, xs[0]), |s.trace.held|, RunAll(s, xs);
    hide Run, RunAll, Meets, Orderly, AtLimits, Caught, WiresOf, Steady, Lagging;
    NextSlice(s, xs, k);
    forall j: nat | n <= j < |r.trace.held|
      ensures Meets(end.trace, j) ==> Caught(WiresOf(r), r.m68k, r.z80Max, xs[1..], r.trace.held[j], 0)
      ensures Caught(WiresOf(r), r.m68k, r.z80Max, xs[1..], r.trace.held[j], k - 1) ==> Meets(end.trace, j)
    {
      HoldOfSlice(s, xs, k, j);
    }
  }

  lemma KeptStep(l: Wires, m68k: int, z: int, xs: seq<Slice>, held: seq<Span>, slack: nat)
    requires xs != []
    ensures var l', m' := NextWires(l, m68k, xs[0]), NextM68k(m68k, xs[0]);
            Kept(l, m68k, z, xs, slack)
            <==> NoneCaught(l', m', xs[0].z, xs[1..], held + Holds(l, m68k, xs[0]), |held|, slack)
                 && Kept(l', m', xs[0].z, xs[1..], slack)
  {
    var l', m', hs := NextWires(l, m68k, xs[0]), NextM68k(m68k, xs[0]), Holds(l, m68k, xs[0]);
    hide NextWires, NextM68k, Holds, Caught;
    if forall i :: 0 <= i < |hs| ==> !Caught(l', m', xs[0].z, xs[1..], hs[i], slack) {
      forall j: nat | |held| <= j < |held + hs| ensures !Caught(l', m', xs[0].z, xs[1..], (held + hs)[j], slack) {
        assert (held + hs)[j] == hs[j - |held|];
      }
    }
    if NoneCaught(l', m', xs[0].z, xs[1..], held + hs, |held|, slack) {
      forall i | 0 <= i < |hs| ensures !Caught(l', m', xs[0].z, xs[1..], hs[i], slack) {
        assert (held + hs)[|held| + i] == hs[i];
      }
    }
  }

  /** The holds that end in a run, and what becomes of them. */
  lemma {:induction false} LaterHolds(s: State, xs: seq<Slice>, k: nat)
    requires Orderly(s) && s.trace.now == s.m68k && AtLimits(s, k) && Steady(s, xs, k) && Lagging(xs) && k > 0
    ensures Kept(WiresOf(s), s.m68k, s.z80Max, xs, 0) ==> NoneOf(s, RunAll(s, xs))
    ensures NoneOf(s, RunAll(s, xs)) ==> Kept(WiresOf(s), s.m68k, s.z80Max, xs, k - 1)
    decreases |xs|
  {
    hide *;
    if xs == [] {
      NoneAtOnce(s, xs);
      KeptAtOnce(WiresOf(s), s.m68k, s.z80Max, k - 1);
    } else {
      NextSlice(s, xs, k);
      RunWires(s, xs[0]);
      LaterHolds(Run(s, xs[0]), xs[1..], k);
      HoldsOfSlice(s, xs, k);
      KeptStep(WiresOf(s), s.m68k, s.z80Max, xs, s.trace.held, 0);
      KeptStep(WiresOf(s), s.m68k, s.z80Max, xs, s.trace.held, k - 1);
    }
  }

  lemma KeptAtOnce(l: Wires, m68k: int, z: int, slack: nat)
    ensures Kept(l, m68k, z, [], slack)
  {
  }

  /** The whole run, for every behaviour of the cores and every program: no held cycle is executed if no hold, old or
      new, is caught by the scripts and the limits; and if none is executed, none was caught with room for the overshoot
      of the cores. Cores that do not overshoot, k being 1, make this an equivalence. */
  lemma HeldCyclesByTheScripts(s: State, xs: seq<Slice>, k: nat)
    requires Orderly(s) && NoHeldCycleRan(s.trace)
    requires s.trace.now == s.m68k && AtLimits(s, k) && Steady(s, xs, k) && Lagging(xs)
    ensures Kept(WiresOf(s), s.m68k, s.z80Max, xs, 0) && NotCaught(s, xs, 0) ==> NoHeldCycleRan(RunAll(s, xs).trace)
    ensures NoHeldCycleRan(RunAll(s, xs).trace) ==>
              Kept(WiresOf(s), s.m68k, s.z80Max, xs, k - 1) && NotCaught(s, xs, k - 1)
  {
    var end := RunAll(s, xs);
    LimitsMeanOvershoot(s, k);
    hide RunAll, Meets, Kept, Orderly, AtLimits, Caught, WiresOf, Steady, Open, NoHeldCycleRan, Grows;
    LaterHolds(s, xs, k);
    RunAllGrows(s, xs);
    NoHeldCycleMeans(s.trace);
    NoHeldCycleMeans(end.trace);
    HeldSoFar(s.trace, end.trace);
    forall j: nat | j < |s.trace.held|
      ensures Meets(end.trace, j) ==> Caught(WiresOf(s), s.m68k, s.z80Max, xs, s.trace.held[j], 0)
      ensures Caught(WiresOf(s), s.m68k, s.z80Max, xs, s.trace.held[j], k - 1) ==> Meets(end.trace, j)
    {
      HeldBehind(s, j);
      HoldIsExecuted(s, xs, j, k);
    }
  }

  lemma LimitsMeanOvershoot(s: State, k: nat)
    requires AtLimits(s, k)
    ensures k > 0
  {
  }

  lemma HeldSoFar(a: Trace, b: Trace)
    requires Grows(a, b)
    ensures |a.held| <= |b.held|
  {
  }

  /** None of the holds up to now is caught. */
  ghost predicate NotCaught(s: State, xs: seq<Slice>, slack: nat) {
    forall j: nat :: j < |s.trace.held| ==> !Caught(WiresOf(s), s.m68k, s.z80Max, xs, s.trace.held[j], slack)
  }

  /** From here on the bus and the reset are left alone. */
  ghost predicate Quiet(xs: seq<Slice>) { forall i :: 0 <= i < |xs| ==> xs[i].c.acts == [] }

  ghost predicate Rising(z: int, xs: seq<Slice>)
    decreases |xs|
  {
    xs == [] || (z <= xs[0].z && Rising(xs[0].z, xs[1..]))
  }

  function LastZ(z: int, xs: seq<Slice>): int { if xs == [] then z else xs[|xs| - 1].z }

  lemma {:induction false} LastZIsLast(z: int, xs: seq<Slice>)
    requires Rising(z, xs)
    ensures z <= LastZ(z, xs)
    decreases |xs|
  {
    if xs != [] { LastZIsLast(xs[0].z, xs[1..]); }
  }

  /** With the Z80 running and its bus left alone, a hold of which cycles are still in front of the limit is caught
      exactly when the last limit lies behind its start and the limit now. */
  lemma {:induction false} QuietCatches(l: Wires, m68k: int, z: int, xs: seq<Slice>, h: Span)
    requires !l.busreq && !l.reset && Quiet(xs) && Rising(z, xs) && h.from < h.to && z < h.to
    ensures Caught(l, m68k, z, xs, h, 0) <==> LastZ(z, xs) > Max(z, h.from)
    decreases |xs|
  {
    if xs != [] {
      var x := xs[0];
      assert ActsOf(m68k, x) == [] && NextWires(l, m68k, x) == l && Runs(l.busreq, l.reset, []);
      LastZIsLast(x.z, xs[1..]);
      assert LastZ(z, xs) == LastZ(x.z, xs[1..]);
      if x.z <= Max(z, h.from) {
        QuietCatches(l, NextM68k(m68k, x), x.z, xs[1..], h);
      }
      hide Runs, NextWires, NextM68k, Quiet;
    }
  }

  /** A hold that ended before the limit is not caught any more. */
  lemma {:induction false} PassedIsNotCaught(l: Wires, m68k: int, z: int, xs: seq<Slice>, h: Span, slack: nat)
    requires Rising(z, xs) && h.to <= z
    ensures !Caught(l, m68k, z, xs, h, slack)
    decreases |xs|
  {
    if xs != [] {
      hide Runs, NextWires, NextM68k, ActsOf;
      PassedIsNotCaught(NextWires(l, m68k, xs[0]), NextM68k(m68k, xs[0]), xs[0].z, xs[1..], h, slack);
    }
  }

  lemma {:induction false} EndedInTime(l: Wires, time: int, end: int, z: int, acts: seq<Act>)
    requires ActsInTime(l.busreq, time, end, z, 0, acts)
    ensures forall i :: 0 <= i < |EndedAll(l, time, end, acts)| ==> EndedAll(l, time, end, acts)[i].to <= z
    ensures WiresAfterAll(l, time, end, acts).busreq == BusAfterAll(l.busreq, acts)
    decreases |acts|
  {
    if acts != [] {
      var t := Min(time + acts[0].gap, end);
      EndedInTime(WiresAfter(l, t, acts[0]), t, end, z, acts[1..]);
    }
  }

  /** Releases in time are one way to keep to it. */
  lemma {:induction false} InTimeIsKept(l: Wires, m68k: int, z: int, xs: seq<Slice>)
    requires InTime(l.busreq, m68k, xs, 0) && Rising(z, xs)
    ensures Kept(l, m68k, z, xs, 0)
    decreases |xs|
  {
    if xs != [] {
      var x := xs[0];
      var l', m', hs := NextWires(l, m68k, x), NextM68k(m68k, x), Holds(l, m68k, x);
      if m68k < x.m { EndedInTime(l, m68k, x.m + x.c.over, x.z, x.c.acts); }
      assert forall i :: 0 <= i < |hs| ==> hs[i].to <= x.z;
      assert l'.busreq == NextBus(l.busreq, m68k, x);
      hide NextWires, NextM68k, NextBus, Holds, SliceInTime, Caught;
      forall i | 0 <= i < |hs| ensures !Caught(l', m', x.z, xs[1..], hs[i], 0) {
        PassedIsNotCaught(l', m', x.z, xs[1..], hs[i], 0);
      }
      InTimeIsKept(l', m', x.z, xs[1..]);
    }
  }

  lemma {:induction false} SteadyRises(s: State, xs: seq<Slice>, k: nat)
    requires Steady(s, xs, k)
    ensures Rising(s.z80Max, xs)
    decreases |xs|
  {
    if xs != [] { SteadyRises(Raise(s, xs[0].m, xs[0].z), xs[1..], k); }
    hide StepsOn;
  }

  /** What a late release leads to when the bus is left alone from then on and the cores do not overshoot: the held
      cycles are executed if and only if the last limit of the run lies behind the moment the bus was taken. */
  lemma LateHoldIsExecutedExactlyWhen(s: State, xs: seq<Slice>, j: nat)
    requires Open(s, j) && Unpaid(s, j) && !s.busreq && !s.reset && s.trace.now == s.m68k
    requires AtLimits(s, 1) && Steady(s, xs, 1) && Quiet(xs)
    ensures Meets(RunAll(s, xs).trace, j) <==> LastZ(s.z80Max, xs) > Max(s.z80Max, s.trace.held[j].from)
  {
    assert s.z80 == s.z80Max && !WiresOf(s).busreq && !WiresOf(s).reset;
    hide RunAll, Meets, Steady, Quiet, Rising, Caught, Open, LastZ, WiresOf;
    SteadyRises(s, xs, 1);
    HoldIsExecuted(s, xs, j, 1);
    QuietCatches(WiresOf(s), s.m68k, s.z80Max, xs, s.trace.held[j]);
  }

  const NEW_TRACE := Trace([], [], 0, 0, 0, 0, 0)

  /** The start of a frame. */
  function Start(busreq: bool, reset: bool): State { State(0, 0, 0, 0, busreq, reset, NEW_TRACE) }

  const M68K_LINE := 3416 / 7
  const Z80_LINE := 3416 / 15
  const M68K_HBLANK := M68K_LINE * 36 / 209
  const Z80_HBLANK := Z80_LINE * 36 / 209

  lemma OneAct(s: State, time: int, end: int, b: Act)
    ensures DoAll(s, time, end, [b]) == Do(s, Min(time + b.gap, end), b)
  {
    hide Do;
    assert [b][1..] == [];
  }

  lemma TwoActs(s: State, time: int, end: int, a: Act, b: Act)
    ensures var t := Min(time + a.gap, end); var u := Min(t + b.gap, end);
            DoAll(s, time, end, [a, b]) == Do(Do(s, t, a), u, b)
  {
    var t := Min(time + a.gap, end);
    assert [a, b][1..] == [b];
    OneAct(Do(s, t, a), t, end, b);
    hide Do;
  }

  /** A slice in which the cores do not overshoot and the bus is left alone. */
  lemma QuietSlice(s: State, m: int, z: int)
    requires !s.busreq && !s.reset && s.m68k < m && s.z80 < z
    ensures Run(s, Slice(m, z, Script(0, []), 0))
         == State(m, m, z, z, false, false,
                  s.trace.(ran := s.trace.ran + [Span(s.z80, z)], now := m, executed := s.trace.executed + z - s.z80))
  {
  }

  /** Taking the bus at t and releasing it at u, both behind the limit of the slice. */
  lemma LateHold(s: State, t: int, u: int)
    requires !s.busreq && !s.reset && s.z80Max <= t / 2 < u / 2 && s.m68k <= t <= u && s.z80 < s.z80Max
    ensures var r := Do(Do(s, t, TakeBus(t - s.m68k, 0)), u, ReleaseBus(u - t, 0));
            r == State(s.m68k, s.m68kMax, s.z80Max, s.z80Max, false, false,
                       s.trace.(ran := s.trace.ran + [Span(s.z80, s.z80Max)],
                                held := s.trace.held + [Span(t / 2, u / 2)],
                                since := t / 2, now := u, executed := s.trace.executed + s.z80Max - s.z80,
                                late := s.trace.late + 1))
  {
  }

  lemma LateHoldSlice(s: State, m: int, z: int, t: int, u: int)
    requires !s.busreq && !s.reset && s.m68k <= t <= u <= m && s.m68k < m && s.z80 < z <= t / 2 < u / 2
    ensures var r := Run(s, Slice(m, z, Script(0, [TakeBus(t - s.m68k, 0), ReleaseBus(u - t, 0)]), 0));
            && r.trace.ran == s.trace.ran + [Span(s.z80, z)] && r.trace.held == s.trace.held + [Span(t / 2, u / 2)]
            && !r.busreq && !r.reset && r.z80 == z && r.m68k == r.trace.now == m
  {
    var a := Raise(s, m, z);
    TwoActs(a, a.m68k, m, TakeBus(t - s.m68k, 0), ReleaseBus(u - t, 0));
    LateHold(a, t, u);
    hide Do, DoAll;
  }

  const QUIET := Script(0, [])

  /** A quiet slice, one in which the bus is taken at t and given back at u behind the limit of the Z80, and any slice
      after it that goes past t. */
  lemma LateHoldRuns(m0: int, z0: int, m: int, z: int, t: int, u: int, next: Slice)
    requires 0 < m0 <= t <= u <= m && m0 < m && 0 < z0 < z <= t / 2 < u / 2 && z < next.z && t / 2 < next.z
    ensures var x, y := Slice(m0, z0, QUIET, 0), Slice(m, z, Script(0, [TakeBus(t - m0, 0), ReleaseBus(u - t, 0)]), 0);
            !NoHeldCycleRan(Run(Run(Run(Start(false, false), x), y), next).trace)
  {
    var s := Start(false, false);
    QuietSlice(s, m0, z0);
    assert [] + [Span(0, z0)] == [Span(0, z0)];
    var a := Run(s, Slice(m0, z0, QUIET, 0));
    LateHoldSlice(a, m, z, t, u);
    hide Run;
    var b := Run(a, Slice(m, z, Script(0, [TakeBus(t - m0, 0), ReleaseBus(u - t, 0)]), 0));
    assert b.trace.ran == [Span(0, z0), Span(z0, z)] && b.trace.held == [Span(t / 2, u / 2)];
    FirstHold(b, z0, z, t, u, next);
  }

  lemma FirstHold(b: State, z0: int, z: int, t: int, u: int, next: Slice)
    requires 0 < z0 < z <= t / 2 < u / 2 && u <= b.trace.now
    requires b.trace.ran == [Span(0, z0), Span(z0, z)] && b.trace.held == [Span(t / 2, u / 2)] && !b.busreq && !b.reset
    requires b.z80 == z && b.m68k == b.trace.now && next.z > z && next.z > t / 2
    ensures !NoHeldCycleRan(Run(b, next).trace)
  {
    assert !Meets(b.trace, 0);
    assert Open(b, 0) && !Apart(Span(b.z80, next.z), b.trace.held[0]);
    RunningRuns(ActsOf(b.m68k, next));
    HeldCyclesRunExactlyWhen(b, next, 0);
    var r := Run(b, next).trace;
    assert Grows(r, r);
    hide Run, Apart, NoHeldCycleRan, Open, Runs;
    MeetsStays(r, r, 0);
  }

  /** The first line of a frame already shows it. The bus is taken towards the end of the line and given back after 20
      cycles of the 68000; both come after the limit of the Z80, so that the next slice runs it right through, whatever
      happens in that slice. */
  lemma HeldCycleRuns(c: Script, k: nat)
    ensures var x := Slice(M68K_HBLANK, Z80_HBLANK, QUIET, 0);
            var y := Slice(M68K_LINE, Z80_LINE, Script(0, [TakeBus(370, 0), ReleaseBus(20, 0)]), 0);
            var next := Slice(M68K_LINE + M68K_HBLANK, Z80_LINE + Z80_HBLANK, c, k);
            !NoHeldCycleRan(Run(Run(Run(Start(false, false), x), y), next).trace)
  {
    var next := Slice(M68K_LINE + M68K_HBLANK, Z80_LINE + Z80_HBLANK, c, k);
    assert M68K_LINE == 488 && Z80_LINE == 227 && M68K_HBLANK == 84 && Z80_HBLANK == 39;
    hide *;
    LateHoldRuns(M68K_HBLANK, Z80_HBLANK, M68K_LINE, Z80_LINE, 454, 474, next);
  }

  /** With the real constants the 68000 runs ahead by 17 half cycles a line, so that from some line on every release,
      whenever in the line it comes, is late. */
  lemma EveryReleaseIsLate(s: State, line: nat, t: int, k: nat)
    requires s.busreq && s.z80 < s.z80Max + k && 17 * line >= 185 + k
    requires || (s.z80Max == Z80_LINE * line + Z80_HBLANK && t >= M68K_LINE * line)
             || (s.z80Max == Z80_LINE * line + Z80_LINE && t >= M68K_LINE * line + M68K_HBLANK)
    ensures Cancel(s, t).trace.late == s.trace.late + 1
  {
    ReleaseIsLateExactlyWhen(s, t);
    HalfTime(line, t);
    assert M68K_LINE == 488 && Z80_LINE == 227 && M68K_HBLANK == 84 && Z80_HBLANK == 39;
    hide *;
    assert t / 2 >= s.z80Max + k;
  }

  lemma HalfTime(line: nat, t: int)
    ensures t >= 488 * line ==> t / 2 >= 244 * line
    ensures t >= 488 * line + 84 ==> t / 2 >= 244 * line + 42
  {
  }

  // ------------------------------------------------------------------------- prefixes

  lemma {:induction false} RunAllAppend(s: State, xs: seq<Slice>, x: Slice)
    ensures RunAll(s, xs + [x]) == Run(RunAll(s, xs), x)
    decreases |xs|
  {
    hide Run;
    if xs == [] {
      assert [] + [x] == [x] && [x][1..] == [];
    } else {
      assert (xs + [x])[1..] == xs[1..] + [x];
      RunAllAppend(Run(s, xs[0]), xs[1..], x);
    }
  }

  lemma RunAllNext(s: State, xs: seq<Slice>, i: nat)
    requires i < |xs|
    ensures RunAll(s, xs[..i + 1]) == Run(RunAll(s, xs[..i]), xs[i])
  {
    assert xs[..i + 1] == xs[..i] + [xs[i]];
    RunAllAppend(s, xs[..i], xs[i]);
  }
}
