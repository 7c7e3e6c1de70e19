/** One frame (mdfr.cpp, one_frame): the slices of every line, the methods that run the CPUs through them, and the
    budget they end with. */
module FrameScheduler {
  import opened BusArbitration

  /** What the two cores do in a slice. */
  datatype Turn = Turn(c: Script, k: nat)

  /** The cycles per line of both CPUs, and the lines of a frame and of its visible part. */
  datatype Video = Video(m68kLine: nat, z80Line: nat, lines: nat, vblank: nat)

  const NTSC := Video(M68K_LINE, Z80_LINE, 262, 224)
  const PAL := Video(M68K_LINE, Z80_LINE, 312, 240)

  function Hblank(line: nat): nat { line * 36 / 209 }

  function Vdelay(line: nat): nat { line * 36 / 156 }

  /** The lines that are run; the first two lines of the vertical blank always are. */
  function Lines(v: Video): nat { Max(v.lines, v.vblank + 2) }

  /** Where slice i ends, for a CPU with a number of cycles per line: each line is cut at the end of its horizontal
      blank, and the first line of the vertical blank a second time, where the interrupt is raised. */
  function Limit(line: nat, vblank: nat, i: nat): nat {
    if i == 2 * vblank + 1 then vblank * line + Vdelay(line)
    else
      var j := if i <= 2 * vblank then i else i - 1;
      j / 2 * line + if j % 2 == 0 then Hblank(line) else line
  }

  function SliceAt(v: Video, t: Turn, i: nat): Slice {
    Slice(Limit(v.m68kLine, v.vblank, i), Limit(v.z80Line, v.vblank, i), t.c, t.k)
  }

  function FrameSlices(v: Video, turns: seq<Turn>): (xs: seq<Slice>)
    ensures |xs| == |turns| && forall i :: 0 <= i < |xs| ==> xs[i] == SliceAt(v, turns[i], i)
  {
    seq(|turns|, i requires 0 <= i < |turns| => SliceAt(v, turns[i], i))
  }

  ghost predicate Tamed(turns: seq<Turn>, k: nat) {
    forall i :: 0 <= i < |turns| ==> Tame(turns[i].c, k) && turns[i].k < k
  }

  lemma Parts(line: nat)
    ensures Hblank(line) <= Vdelay(line) <= line
  {
  }

  lemma NextLine(n: nat, line: nat)
    ensures (n + 1) * line == n * line + line
  {
  }

  /** The limits of a CPU go forward from slice to slice. */
  lemma LimitsRise(line: nat, vblank: nat, i: nat)
    ensures Limit(line, vblank, i) <= Limit(line, vblank, i + 1)
    ensures Limit(line, vblank, 0) >= 0
  {
    Parts(line);
    var j := if i <= 2 * vblank then i else i - 1;
    hide Hblank, Vdelay;
    NextLine(j / 2, line);
    if j % 2 == 1 {
      assert (j + 1) / 2 == j / 2 + 1;
    } else {
      assert (j + 1) / 2 == j / 2;
    }
  }

  /** The last of the 2n + 1 slices of n lines ends with the last line. */
  lemma LastLimit(line: nat, vblank: nat, n: nat)
    requires n >= vblank + 2
    ensures Limit(line, vblank, 2 * n) == n * line
  {
    NextLine(n - 1, line);
    assert (2 * n - 1) / 2 == n - 1 && (2 * n - 1) % 2 == 1;
  }

  lemma Lag(m: nat, z: nat, n: nat)
    requires 2 * z <= m
    ensures 2 * (n * z) <= n * m && 2 * Hblank(z) <= Hblank(m) && 2 * Vdelay(z) <= Vdelay(m)
  {
    assert n * (2 * z) <= n * m;
    hide *;
    assert 2 * (n * z) == n * (2 * z);
  }

  lemma {:induction false} FrameIsSteady(s: State, v: Video, turns: seq<Turn>, i: nat, k: nat)
    requires i <= |turns| && Tamed(turns, k)
    requires s.m68kMax <= Limit(v.m68kLine, v.vblank, i) && s.z80Max <= Limit(v.z80Line, v.vblank, i)
    ensures Steady(s, FrameSlices(v, turns)[i..], k)
    decreases |turns| - i
  {
    var xs := FrameSlices(v, turns);
    if i < |turns| {
      LimitsRise(v.m68kLine, v.vblank, i);
      LimitsRise(v.z80Line, v.vblank, i);
      assert xs[i..][0] == xs[i] && xs[i..][1..] == xs[i + 1..];
      hide Limit, Tame;
      FrameIsSteady(Raise(s, xs[i].m, xs[i].z), v, turns, i + 1, k);
    }
  }

  /** A frame ends with both limits exactly at the cycles of its lines and with both odometers there or less than K
      beyond, whatever the cores do; the Z80's odometer is what was executed and what was passed over. */
  lemma FrameBudget(v: Video, turns: seq<Turn>, busreq: bool, reset: bool, k: nat)
    requires |turns| == 2 * Lines(v) + 1 && Tamed(turns, k)
    ensures var r := RunAll(Start(busreq, reset), FrameSlices(v, turns));
            && r.m68kMax == Lines(v) * v.m68kLine && r.z80Max == Lines(v) * v.z80Line
            && AtLimits(r, k) && Conserved(r)
  {
    hide *;
    FrameEnds(v, turns);
    FrameStarts(v, turns, busreq, reset, k);
    FrameReachesLimits(Start(busreq, reset), FrameSlices(v, turns), k);
  }

  /** What every frame ends with. */
  lemma FrameEnds(v: Video, turns: seq<Turn>)
    requires |turns| == 2 * Lines(v) + 1
    ensures var xs := FrameSlices(v, turns);
            xs != [] && xs[|xs| - 1].m == Lines(v) * v.m68kLine && xs[|xs| - 1].z == Lines(v) * v.z80Line
  {
    LinesEnough(v);
    hide Lines, Limit;
    LastLimit(v.m68kLine, v.vblank, Lines(v));
    LastLimit(v.z80Line, v.vblank, Lines(v));
  }

  lemma LinesEnough(v: Video)
    ensures Lines(v) >= v.vblank + 2
  {
  }

  /** What every frame starts with. */
  lemma FrameStarts(v: Video, turns: seq<Turn>, busreq: bool, reset: bool, k: nat)
    requires Tamed(turns, k) && turns != []
    ensures var s := Start(busreq, reset);
            AtLimits(s, k) && Conserved(s) && Steady(s, FrameSlices(v, turns), k)
  {
    var s, xs := Start(busreq, reset), FrameSlices(v, turns);
    LimitsRise(v.m68kLine, v.vblank, 0);
    LimitsRise(v.z80Line, v.vblank, 0);
    hide Limit, Steady, Tame;
    FrameIsSteady(s, v, turns, 0, k);
    assert xs[0..] == xs && turns[0].k < k;
  }

  lemma LimitsLag(m: nat, z: nat, vblank: nat, i: nat)
    requires 2 * z <= m
    ensures 2 * Limit(z, vblank, i) <= Limit(m, vblank, i)
  {
    Lag(m, z, vblank);
    Lag(m, z, (if i <= 2 * vblank then i else i - 1) / 2);
    hide Hblank, Vdelay;
  }

  /** In a frame in which every release comes before the limit of its slice the Z80 is never asked for a cycle in which
      the 68000 held its bus. */
  lemma FrameRespectsBus(v: Video, turns: seq<Turn>, busreq: bool, reset: bool, k: nat)
    requires |turns| == 2 * Lines(v) + 1 && Tamed(turns, k) && 2 * v.z80Line <= v.m68kLine
    requires InTime(busreq, 0, FrameSlices(v, turns), 0)
    ensures NoHeldCycleRan(RunAll(Start(busreq, reset), FrameSlices(v, turns)).trace)
  {
    var s, xs := Start(busreq, reset), FrameSlices(v, turns);
    FrameStarts(v, turns, busreq, reset, k);
    FrameLags(v, turns);
    assert Accounted(s) && s.m68k == 0;
    hide Limit, RunAll, Steady, AtLimits, InTime, Tamed, Conserved, Lagging;
    BusIsRespected(s, xs, k);
  }

  /** The exact condition: a frame asks the Z80 for held cycles only if some hold that ends in it is caught by the
      scripts and the limits behind it, and if one is caught with room for the overshoot of the cores, it does. For
      cores that do not overshoot, k being 1, that is an equivalence. */
  lemma FrameRunsHeldCyclesWhen(v: Video, turns: seq<Turn>, busreq: bool, reset: bool, k: nat)
    requires |turns| == 2 * Lines(v) + 1 && Tamed(turns, k) && 2 * v.z80Line <= v.m68kLine
    ensures Kept(Wires(busreq, reset, 0), 0, 0, FrameSlices(v, turns), 0)
            ==> NoHeldCycleRan(RunAll(Start(busreq, reset), FrameSlices(v, turns)).trace)
    ensures k > 0 && (NoHeldCycleRan(RunAll(Start(busreq, reset), FrameSlices(v, turns)).trace)
            ==> Kept(Wires(busreq, reset, 0), 0, 0, FrameSlices(v, turns), k - 1))
  {
    var s, xs := Start(busreq, reset), FrameSlices(v, turns);
    FrameStarts(v, turns, busreq, reset, k);
    FrameLags(v, turns);
    assert Orderly(s) && NoHeldCycleRan(s.trace) && WiresOf(s) == Wires(busreq, reset, 0) && s.trace.held == [];
    LimitsMeanOvershoot(s, k);
    hide RunAll, Steady, AtLimits, Kept, Caught, Tamed, Conserved, Orderly, NoHeldCycleRan, Lagging, FrameSlices;
    HeldCyclesByTheScripts(s, xs, k);
  }

  /** A hold that ended before slice i of a frame, in a program that leaves the bus alone from then on, on cores that do
      not overshoot: what is left of it is executed if and only if it began before the last limit of the frame. */
  lemma HoldOfTheFrameRunsExactlyWhen(v: Video, turns: seq<Turn>, i: nat, s: State, j: nat)
    requires |turns| == 2 * Lines(v) + 1 && i <= |turns| && Tamed(turns, 1)
    requires forall n :: i <= n < |turns| ==> turns[n].c.acts == []
    requires Open(s, j) && Unpaid(s, j) && !s.busreq && !s.reset && s.trace.now == s.m68k && AtLimits(s, 1)
    requires i > 0 && s.m68kMax == Limit(v.m68kLine, v.vblank, i - 1) && s.z80Max == Limit(v.z80Line, v.vblank, i - 1)
    ensures Meets(RunAll(s, FrameSlices(v, turns)[i..]).trace, j)
            <==> Max(s.z80Max, s.trace.held[j].from) < Lines(v) * v.z80Line
  {
    hide *;
    RestIsSteady(v, turns, i, s);
    RestIsQuiet(v, turns, i);
    RestEnds(v, turns, i, s.z80Max);
    LateHoldIsExecutedExactlyWhen(s, FrameSlices(v, turns)[i..], j);
  }

  lemma RestIsSteady(v: Video, turns: seq<Turn>, i: nat, s: State)
    requires 0 < i <= |turns| && Tamed(turns, 1)
    requires s.m68kMax == Limit(v.m68kLine, v.vblank, i - 1) && s.z80Max == Limit(v.z80Line, v.vblank, i - 1)
    ensures Steady(s, FrameSlices(v, turns)[i..], 1)
  {
    hide *;
    LimitsRise(v.m68kLine, v.vblank, i - 1);
    LimitsRise(v.z80Line, v.vblank, i - 1);
    FrameIsSteady(s, v, turns, i, 1);
  }

  lemma RestIsQuiet(v: Video, turns: seq<Turn>, i: nat)
    requires i <= |turns| && forall n :: i <= n < |turns| ==> turns[n].c.acts == []
    ensures Quiet(FrameSlices(v, turns)[i..])
  {
    hide Limit;
  }

  lemma RestEnds(v: Video, turns: seq<Turn>, i: nat, z: int)
    requires |turns| == 2 * Lines(v) + 1 && 0 < i <= |turns| && z == Limit(v.z80Line, v.vblank, i - 1)
    ensures LastZ(z, FrameSlices(v, turns)[i..]) == Lines(v) * v.z80Line
  {
    LinesEnough(v);
    FrameEnds(v, turns);
    hide Limit, Lines;
    LastLimit(v.z80Line, v.vblank, Lines(v));
  }

  lemma FrameLags(v: Video, turns: seq<Turn>)
    requires 2 * v.z80Line <= v.m68kLine
    ensures Lagging(FrameSlices(v, turns))
  {
    var xs := FrameSlices(v, turns);
    forall i | 0 <= i < |xs| ensures 2 * xs[i].z <= xs[i].m {
      LimitsLag(v.m68kLine, v.z80Line, v.vblank, i);
    }
    hide Limit;
  }

  /** The same frame in which nothing happens but that the bus is held for 20 cycles late in the first line. */
  function LateTurn(i: int): Turn {
    Turn(if i == 1 then Script(0, [TakeBus(370, 0), ReleaseBus(20, 0)]) else QUIET, 0)
  }

  function LateTurns(n: nat): seq<Turn> { seq(n, i => LateTurn(i)) }

  /** A frame of either standard that executes held cycles. */
  lemma FrameRunsHeldCycle(v: Video)
    requires v == NTSC || v == PAL
    ensures !NoHeldCycleRan(RunAll(Start(false, false), FrameSlices(v, LateTurns(2 * Lines(v) + 1))).trace)
  {
    var turns := LateTurns(2 * Lines(v) + 1);
    var xs, s := FrameSlices(v, turns), Start(false, false);
    FirstLimits(v.m68kLine, v.vblank);
    FirstLimits(v.z80Line, v.vblank);
    assert xs[0] == Slice(M68K_HBLANK, Z80_HBLANK, QUIET, 0);
    assert xs[1] == Slice(M68K_LINE, Z80_LINE, Script(0, [TakeBus(370, 0), ReleaseBus(20, 0)]), 0);
    assert xs[2] == Slice(M68K_LINE + M68K_HBLANK, Z80_LINE + Z80_HBLANK, QUIET, 0);
    assert |xs| >= 3;
    hide *;
    ThreeSlices(s, xs);
    HeldCycleRuns(QUIET, 0);
    RunAllGrows(Run(Run(Run(s, xs[0]), xs[1]), xs[2]), xs[3..]);
    StaysBroken(Run(Run(Run(s, xs[0]), xs[1]), xs[2]).trace, RunAll(s, xs).trace);
  }

  lemma FirstLimits(line: nat, vblank: nat)
    requires vblank >= 2
    ensures Limit(line, vblank, 0) == Hblank(line) && Limit(line, vblank, 1) == line
    ensures Limit(line, vblank, 2) == line + Hblank(line)
  {
    LineLimits(line, vblank, 0);
    LineLimits(line, vblank, 1);
  }

  lemma ThreeSlices(s: State, xs: seq<Slice>)
    requires |xs| >= 3
    ensures RunAll(s, xs) == RunAll(Run(Run(Run(s, xs[0]), xs[1]), xs[2]), xs[3..])
  {
    hide Run;
    assert xs[1..][1..] == xs[2..] && xs[2..][1..] == xs[3..];
    assert RunAll(Run(s, xs[0]), xs[1..]) == RunAll(Run(Run(s, xs[0]), xs[1]), xs[2..]);
  }

  lemma StaysBroken(a: Trace, b: Trace)
    requires Grows(a, b) && !NoHeldCycleRan(a)
    ensures !NoHeldCycleRan(b)
  {
    var i, j :| 0 <= i < |a.ran| && 0 <= j < |a.held| && !Apart(a.ran[i], a.held[j]);
    assert b.ran[i] == a.ran[i] && b.held[j] == a.held[j];
  }

  /** In a frame with the real constants, `s` being the state before slice i of the visible lines and q one while the
      68000 is run through it: from some line on every release is late. */
  lemma ReleasesOfTheFrameAreLate(v: Video, i: nat, s: State, q: State, t: int, k: nat)
    requires v.m68kLine == M68K_LINE && v.z80Line == Z80_LINE && 1 <= i < 2 * v.vblank && 17 * (i / 2) >= 185 + k
    requires s.m68kMax == Limit(v.m68kLine, v.vblank, i - 1) && AtLimits(s, k) && s.m68k <= t
    requires q.busreq && q.z80Max == Limit(v.z80Line, v.vblank, i) && q.z80 < q.z80Max + k
    ensures Cancel(q, t).trace.late == q.trace.late + 1
  {
    var line := i / 2;
    LineLimits(v.m68kLine, v.vblank, line);
    LineLimits(v.z80Line, v.vblank, line);
    if i % 2 == 0 {
      LineLimits(v.m68kLine, v.vblank, line - 1);
    }
    hide Limit, Cancel;
    EveryReleaseIsLate(q, line, t, k);
  }

  lemma RunKeepsLimits(s: State, x: Slice)
    ensures Run(s, x).m68kMax == x.m && Run(s, x).z80Max == x.z
  {
    var a := Raise(s, x.m, x.z);
    DoAllKeepsLimits(a, a.m68k, a.m68kMax + x.c.over, x.c.acts);
    hide DoAll;
  }

  lemma LineLimits(line: nat, vblank: nat, ras: nat)
    requires ras != vblank
    ensures var i := if ras < vblank then 2 * ras else 2 * ras + 1;
            && Limit(line, vblank, i) == ras * line + Hblank(line)
            && Limit(line, vblank, i + 1) == ras * line + line == (ras + 1) * line
  {
    NextLine(ras, line);
    assert 2 * ras / 2 == ras && (2 * ras + 1) / 2 == ras;
    hide Hblank, Vdelay;
  }

  /** The two slices of a line that is not the first blank one. */
  lemma LineSlices(v: Video, turns: seq<Turn>, ras: nat, i: nat)
    requires ras != v.vblank && i == (if ras < v.vblank then 2 * ras else 2 * ras + 1) && i + 1 < |turns|
    ensures var m, z := ras * v.m68kLine, ras * v.z80Line;
            && FrameSlices(v, turns)[i] == Slice(m + Hblank(v.m68kLine), z + Hblank(v.z80Line), turns[i].c, turns[i].k)
            && FrameSlices(v, turns)[i + 1] == Slice(m + v.m68kLine, z + v.z80Line, turns[i + 1].c, turns[i + 1].k)
            && m + v.m68kLine == (ras + 1) * v.m68kLine && z + v.z80Line == (ras + 1) * v.z80Line
  {
    LineLimits(v.m68kLine, v.vblank, ras);
    LineLimits(v.z80Line, v.vblank, ras);
    hide Limit, Hblank, FrameSlices;
  }

  lemma VblankLimits(line: nat, vblank: nat)
    ensures Limit(line, vblank, 2 * vblank) == vblank * line + Hblank(line)
    ensures Limit(line, vblank, 2 * vblank + 1) == vblank * line + Vdelay(line)
    ensures Limit(line, vblank, 2 * vblank + 2) == vblank * line + line == (vblank + 1) * line
  {
    NextLine(vblank, line);
    assert 2 * vblank / 2 == vblank && (2 * vblank + 1) / 2 == vblank;
    hide Hblank, Vdelay;
  }

  /** The moments of a line in cycles, with the constants of the source: the horizontal blank ends 84 and 39 cycles into
      a line of 488 and 227; in the first line of the vertical blank the interrupt is raised after 112 and 52. */
  lemma MomentsOfTheFrame(v: Video, i: nat)
    requires (v == NTSC || v == PAL) && i < 2 * v.vblank + 4
    ensures Limit(v.m68kLine, v.vblank, i)
         == if i == 2 * v.vblank + 1 then v.vblank * 488 + 112
            else if i == 2 * v.vblank + 2 then v.vblank * 488 + 488
            else if i == 2 * v.vblank + 3 then v.vblank * 488 + 572
            else i / 2 * 488 + if i % 2 == 0 then 84 else 488
    ensures Limit(v.z80Line, v.vblank, i)
         == if i == 2 * v.vblank + 1 then v.vblank * 227 + 52
            else if i == 2 * v.vblank + 2 then v.vblank * 227 + 227
            else if i == 2 * v.vblank + 3 then v.vblank * 227 + 266
            else i / 2 * 227 + if i % 2 == 0 then 39 else 227
  {
  }

  // ------------------------------------------------------------------------ the machine

  class Md {
    const video: Video
    var m68k: int
    var m68kMax: int
    var z80: int
    var z80Max: int
    var z80StBusreq: bool
    var z80StReset: bool
    ghost var trace: Trace

    constructor (video: Video)
      ensures this.video == video && S() == Start(false, true)
    {
      this.video := video;
      m68k, m68kMax, z80, z80Max := 0, 0, 0, 0;
      z80StBusreq, z80StReset := false, true;
      trace := NEW_TRACE;
    }

    ghost function S(): State
      reads this`m68k, this`m68kMax, this`z80, this`z80Max, this`z80StBusreq, this`z80StReset, this`trace
    {
      State(m68k, m68kMax, z80, z80Max, z80StBusreq, z80StReset, trace)
    }

    /** The Z80 core: takes the cycles it is given and up to its overshoot more. */
    method Z80Core(cycles: nat, k: nat)
      modifies this`z80, this`trace
      ensures S() == Execute(old(S()), cycles, k)
    {
      trace := trace.(ran := trace.ran + [Span(z80, z80 + cycles)], executed := trace.executed + cycles + k);
      z80 := z80 + cycles + k;
    }

    /** Passes cycles over without execution. */
    method Z80Skip(cycles: nat)
      modifies this`z80, this`trace
      ensures S() == Fake(old(S()), cycles)
    {
      trace := trace.(faked := trace.faked + cycles);
      z80 := z80 + cycles;
    }

    /** Synchronises the Z80 with the 68000, which is at m68kOdo. */
    method Z80Sync(m68kOdo: int, fake: bool, k: nat)
      modifies this`z80, this`trace
      ensures S() == Sync(old(S()), m68kOdo, fake, k)
    {
      var cycles := m68kOdo / 2;
      if cycles > z80Max {
        cycles := z80Max;
      }
      cycles := cycles - z80;
      if cycles <= 0 {
        return;
      }
      if fake {
        Z80Skip(cycles);
      } else {
        Z80Core(cycles, k);
      }
    }

    method Z80Run(k: nat)
      modifies this`z80, this`trace
      ensures S() == RunZ80(old(S()), k)
    {
      var cycles := z80Max - z80;
      if cycles <= 0 {
        return;
      }
      if z80StBusreq || z80StReset {
        Z80Skip(cycles);
      } else {
        Z80Core(cycles, k);
      }
    }

    method BusreqRequest(m68kOdo: int, k: nat)
      modifies this`z80, this`z80StBusreq, this`trace
      ensures S() == Request(old(S()), m68kOdo, k)
    {
      if z80StBusreq {
        return;
      }
      z80StBusreq := true;
      trace := trace.(since := m68kOdo / 2);
      if z80StReset {
        return;
      }
      Z80Sync(m68kOdo, false, k);
    }

    method BusreqCancel(m68kOdo: int)
      modifies this`z80, this`z80StBusreq, this`trace
      ensures S() == Cancel(old(S()), m68kOdo)
    {
      if !z80StBusreq {
        return;
      }
      z80StBusreq := false;
      Z80Sync(m68kOdo, true, 0);
      trace := trace.(held := trace.held + [Span(trace.since, m68kOdo / 2)],
                      late := trace.late + if z80 < m68kOdo / 2 then 1 else 0);
    }

    /** The BUSREQ and RESET cases of m68k_IO_write, by what is written. */
    method IoWrite(m68kOdo: int, a: Act)
      modifies this`z80, this`z80StBusreq, this`z80StReset, this`trace
      ensures S() == Do(old(S()), m68kOdo, a)
    {
      match a {
        case TakeBus(_, k) =>
          BusreqRequest(m68kOdo, k);
        case ReleaseBus(_, _) =>
          BusreqCancel(m68kOdo);
        case StartZ80(_, _) =>
          z80StReset := false;
        case ResetZ80(_, k) =>
          if !z80StReset {
            if !z80StBusreq {
              Z80Sync(m68kOdo, false, k);
            }
            z80StReset := true;
          }
      }
      trace := trace.(now := m68kOdo);
    }

    /** Runs the 68000 up to its limit; its core takes up to `over` cycles more and writes to the bus on the way. */
    method M68kRun(c: Script)
      modifies this`m68k, this`z80, this`z80StBusreq, this`z80StReset, this`trace
      ensures S() == RunM68k(old(S()), c)
    {
      var cycles := m68kMax - m68k;
      if cycles <= 0 {
        return;
      }
      var end := m68k + cycles + c.over;
      M68kCore(end, c.acts);
      m68k := end;
      trace := trace.(now := end);
    }

    method M68kCore(end: int, acts: seq<Act>)
      modifies this`z80, this`z80StBusreq, this`z80StReset, this`trace
      ensures S() == DoAll(old(S()), m68k, end, acts)
    {
      ghost var all := DoAll(S(), m68k, end, acts);
      var time, i := m68k, 0;
      assert acts[0..] == acts;
      hide Do;
      while i < |acts|
        invariant 0 <= i <= |acts| && all == DoAll(S(), time, end, acts[i..])
      {
        assert acts[i..][0] == acts[i] && acts[i..][1..] == acts[i + 1..];
        time := Min(time + acts[i].gap, end);
        IoWrite(time, acts[i]);
        i := i + 1;
      }
    }

    /** One slice up to new limits. */
    method RunTo(m: int, z: int, t: Turn)
      modifies this`m68k, this`m68kMax, this`z80, this`z80Max, this`z80StBusreq, this`z80StReset, this`trace
      ensures S() == Run(old(S()), Slice(m, z, t.c, t.k))
    {
      hide RunM68k, RunZ80;
      m68kMax, z80Max := m, z;
      M68kRun(t.c);
      Z80Run(t.k);
    }

    /** Slice i of the frame has been run, and those before it. */
    ghost predicate Done(s0: State, xs: seq<Slice>, i: nat)
      requires i <= |xs|
      reads this`m68k, this`m68kMax, this`z80, this`z80Max, this`z80StBusreq, this`z80StReset, this`trace
    {
      S() == RunAll(s0, xs[..i])
    }

    /** The limits are those of the start of a line. */
    ghost predicate AtLine(ras: nat)
      reads this`m68kMax, this`z80Max
    {
      m68kMax == ras * video.m68kLine && z80Max == ras * video.z80Line
    }

    method RunSlice(m: int, z: int, t: Turn, ghost s0: State, ghost xs: seq<Slice>, ghost i: nat)
      requires i < |xs| && xs[i] == Slice(m, z, t.c, t.k) && Done(s0, xs, i)
      modifies this`m68k, this`m68kMax, this`z80, this`z80Max, this`z80StBusreq, this`z80StReset, this`trace
      ensures Done(s0, xs, i + 1) && m68kMax == m && z80Max == z
    {
      RunAllNext(s0, xs, i);
      RunKeepsLimits(S(), Slice(m, z, t.c, t.k));
      hide Run, RunAll;
      RunTo(m, z, t);
    }

    /** A line of two slices; the vertical blank has one slice more before it. */
    method RunLine(ras: nat, turns: seq<Turn>, i: nat, ghost s0: State)
      requires i == (if ras < video.vblank then 2 * ras else 2 * ras + 1) && ras != video.vblank && i + 1 < |turns|
      requires AtLine(ras) && Done(s0, FrameSlices(video, turns), i)
      modifies this`m68k, this`m68kMax, this`z80, this`z80Max, this`z80StBusreq, this`z80StReset, this`trace
      ensures AtLine(ras + 1) && Done(s0, FrameSlices(video, turns), i + 2)
    {
      ghost var xs := FrameSlices(video, turns);
      hide Limit, Hblank, RunAll, Done, SliceAt, FrameSlices;
      LineSlices(video, turns, ras, i);
      var m, z := m68kMax + video.m68kLine, z80Max + video.z80Line;
      RunSlice(m68kMax + Hblank(video.m68kLine), z80Max + Hblank(video.z80Line), turns[i], s0, xs, i);
      RunSlice(m, z, turns[i + 1], s0, xs, i + 1);
    }

    /** The line in which the vertical blank begins. */
    method RunVblankLine(turns: seq<Turn>, ghost s0: State)
      requires 2 * video.vblank + 2 < |turns|
      requires AtLine(video.vblank) && Done(s0, FrameSlices(video, turns), 2 * video.vblank)
      modifies this`m68k, this`m68kMax, this`z80, this`z80Max, this`z80StBusreq, this`z80StReset, this`trace
      ensures AtLine(video.vblank + 1) && Done(s0, FrameSlices(video, turns), 2 * video.vblank + 3)
    {
      ghost var xs := FrameSlices(video, turns);
      var i := 2 * video.vblank;
      VblankLimits(video.m68kLine, video.vblank);
      VblankLimits(video.z80Line, video.vblank);
      hide Limit, Hblank, Vdelay, RunAll, Done;
      var m, z := m68kMax + video.m68kLine, z80Max + video.z80Line;
      RunSlice(m68kMax + Hblank(video.m68kLine), z80Max + Hblank(video.z80Line), turns[i], s0, xs, i);
      RunSlice(m68kMax + (Vdelay(video.m68kLine) - Hblank(video.m68kLine)),
               z80Max + (Vdelay(video.z80Line) - Hblank(video.z80Line)), turns[i + 1], s0, xs, i + 1);
      RunSlice(m, z, turns[i + 2], s0, xs, i + 2);
    }

    method RunVisibleLines(turns: seq<Turn>, ghost s0: State)
      requires |turns| == 2 * Lines(video) + 1
      requires AtLine(0) && Done(s0, FrameSlices(video, turns), 0)
      modifies this`m68k, this`m68kMax, this`z80, this`z80Max, this`z80StBusreq, this`z80StReset, this`trace
      ensures AtLine(video.vblank) && Done(s0, FrameSlices(video, turns), 2 * video.vblank)
    {
      hide Limit, RunAll, AtLine, Done, SliceAt;
      var ras := 0;
      while ras < video.vblank
        invariant 0 <= ras <= video.vblank && AtLine(ras) && Done(s0, FrameSlices(video, turns), 2 * ras)
      {
        RunLine(ras, turns, 2 * ras, s0);
        ras := ras + 1;
      }
    }

    /** The lines after the first of the vertical blank, one in any case. */
    method RunBlankLines(turns: seq<Turn>, ghost s0: State)
      requires |turns| == 2 * Lines(video) + 1
      requires AtLine(video.vblank + 1) && Done(s0, FrameSlices(video, turns), 2 * video.vblank + 3)
      modifies this`m68k, this`m68kMax, this`z80, this`z80Max, this`z80StBusreq, this`z80StReset, this`trace
      ensures AtLine(Lines(video)) && Done(s0, FrameSlices(video, turns), 2 * Lines(video) + 1)
    {
      hide Limit, RunAll, AtLine, Done, SliceAt;
      var ras := video.vblank + 1;
      RunLine(ras, turns, 2 * ras + 1, s0);
      ras := ras + 1;
      while ras < video.lines
        invariant video.vblank + 2 <= ras <= Lines(video) && AtLine(ras)
        invariant Done(s0, FrameSlices(video, turns), 2 * ras + 1)
      {
        RunLine(ras, turns, 2 * ras + 1, s0);
        ras := ras + 1;
      }
    }

    /** Generates one frame. */
    method OneFrame(turns: seq<Turn>)
      requires |turns| == 2 * Lines(video) + 1
      modifies this
      ensures S() == RunAll(Start(old(z80StBusreq), old(z80StReset)), FrameSlices(video, turns))
    {
      ghost var s0, xs := Start(z80StBusreq, z80StReset), FrameSlices(video, turns);
      assert xs[..0] == [] && xs[..|xs|] == xs;
      m68k, m68kMax, z80, z80Max := 0, 0, 0, 0;
      trace := NEW_TRACE;
      assert S() == s0 && RunAll(s0, []) == s0;
      hide Limit, RunAll, FrameSlices;
      RunVisibleLines(turns, s0);
      RunVblankLine(turns, s0);
      RunBlankLines(turns, s0);
    }
  }
}
