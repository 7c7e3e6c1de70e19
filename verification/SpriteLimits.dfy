/** Which sprites the VDP shows on one line, and how much of them (ras.cpp): the sprite and dot limits,
    sprite masking, and the two drawing passes that follow them. */
module SpriteLimits {
  import opened MachineWords
  import opened SpriteMask

  /** What the limits look at: list index, position, size, priority, flips and first tile. */
  datatype Entry = Entry(index: int, x: int, y: int, w: int, h: int, front: bool, which: int) {
    predicate Shape() {
      (w == 8 || w == 16 || w == 24 || w == 32) && (h == 8 || h == 16 || h == 24 || h == 32)
    }

    predicate OnLine(line: int) { y <= line + 0x80 < y + h }
  }

  function EntryAt(mem: seq<Byte>, base: nat, index: int, interlaced: bool): (e: Entry)
    requires 0 <= index && base + index * 8 + 8 <= |mem|
    ensures e.Shape()
  {
    var a := base + index * 8;
    Entry(index, WordAt(mem, a + 6) % 0x200,
          if interlaced then WordAt(mem, a) % 0x400 / 2 else WordAt(mem, a) % 0x200,
          At(mem, a + 2) / 4 % 4 * 8 + 8, At(mem, a + 2) % 4 * 8 + 8,
          WordAt(mem, a + 4) / 0x8000 == 1, WordAt(mem, a + 4))
  }

  /** The limits and the mask look up the same sprite: position, size, priority, flips and first tile agree. */
  lemma EntryIsTheSprite(mem: seq<Byte>, base: nat, index: int, h40: bool)
    requires 0 <= index && base + index * 8 + 8 <= |mem|
    ensures var e, s := EntryAt(mem, base, index, false), SpriteInfo(mem, base + index * 8, h40);
            && e.x - 0x80 + (if h40 then 0 else 32) == s.x && e.y - 0x80 == s.y && e.w == s.W() && e.h == s.H()
            && e.front == s.prio && (e.which / 0x800 % 2 == 1) == s.xflip && (e.which / 0x1000 % 2 == 1) == s.yflip
            && e.which % 0x800 * 32 == s.tile
  {
  }

  /** The eight bytes that a program writes for a sprite: two of the vertical position, the sizes in tiles, the
      link, two of priority, palette, flips and first tile, two of the horizontal position. */
  predicate Written(mem: seq<Byte>, a: nat, x: Word, y: Word, tw: int, th: int, which: Word)
    requires a + 8 <= |mem|
  {
    && mem[a] == y / 0x100 && mem[a + 1] == y % 0x100 && mem[a + 2] == (tw - 1) * 4 + (th - 1)
    && mem[a + 4] == which / 0x100 && mem[a + 5] == which % 0x100 && mem[a + 6] == x / 0x100 && mem[a + 7] == x % 0x100
  }

  /** What is looked up is what was written; in interlaced mode lines are counted double. */
  lemma WrittenIsLookedUp(mem: seq<Byte>, base: nat, index: int, interlaced: bool, x: Word, y: Word, tw: int, th: int,
      which: Word)
    requires 0 <= index && base + index * 8 + 8 <= |mem| && 1 <= tw <= 4 && 1 <= th <= 4
    requires x < 0x200 && y < (if interlaced then 0x400 else 0x200)
    requires Written(mem, base + index * 8, x, y, tw, th, which)
    ensures EntryAt(mem, base, index, interlaced)
         == Entry(index, x, if interlaced then y / 2 else y, 8 * tw, 8 * th, which >= 0x8000, which)
  {
  }

  /** The entries of the sprites in list order, as the two functions below look them up one by one. */
  function EntriesOf(mem: seq<Byte>, base: nat, order: seq<int>, interlaced: bool): (list: seq<Entry>)
    requires forall i :: 0 <= i < |order| ==> 0 <= order[i] && base + order[i] * 8 + 8 <= |mem|
    ensures |list| == |order| && Shapes(list) && forall i :: 0 <= i < |list| ==> list[i].index == order[i]
  {
    seq(|order|, i requires 0 <= i < |order| => EntryAt(mem, base, order[i], interlaced))
  }

  /** The frame, sprite and dot limits of the two horizontal modes. */
  datatype Limits = Limits(frame: int, sprites: int, dots: int)

  function LimitsOf(h40: bool): Limits {
    if h40 then Limits(80, 20, 320) else Limits(64, 16, 256)
  }

  // -------------------------------------------------------------------- reference

  function Count(list: seq<Entry>, line: int, n: nat): nat
    requires n <= |list|
  {
    if n == 0 then 0 else Count(list, line, n - 1) + if list[n - 1].OnLine(line) then 1 else 0
  }

  function DotsUsed(list: seq<Entry>, line: int, n: nat): int
    requires n <= |list|
  {
    if n == 0 then 0 else DotsUsed(list, line, n - 1) + if list[n - 1].OnLine(line) then list[n - 1].w else 0
  }

  /** The list runs into an entry beyond the frame limit. */
  predicate FrameStop(list: seq<Entry>, l: Limits, i: nat)
    requires i < |list|
  {
    list[i].index >= l.frame
  }

  /** The line's dots run out in this sprite. */
  predicate DotStop(list: seq<Entry>, l: Limits, line: int, i: nat)
    requires i < |list|
  {
    list[i].OnLine(line) && DotsUsed(list, line, i + 1) >= l.dots
  }

  /** This is the last sprite the line has room for. */
  predicate CountStop(list: seq<Entry>, l: Limits, line: int, i: nat)
    requires i < |list|
  {
    list[i].OnLine(line) && Count(list, line, i + 1) >= l.sprites
  }

  ghost predicate MaskingEffective(list: seq<Entry>, line: int, overflowed: bool, i: nat)
    requires i <= |list|
  {
    overflowed || exists j :: 0 <= j < i && list[j].OnLine(line) && list[j].x != 0
  }

  /** A sprite at x = 0 hides everything behind it, if the line before overflowed or another sprite of this
      line came first. */
  ghost predicate MaskStop(list: seq<Entry>, line: int, overflowed: bool, i: nat)
    requires i < |list|
  {
    list[i].OnLine(line) && list[i].x == 0 && MaskingEffective(list, line, overflowed, i)
  }

  predicate HardStop(list: seq<Entry>, l: Limits, line: int, i: nat)
    requires i < |list|
  {
    FrameStop(list, l, i) || DotStop(list, l, line, i) || CountStop(list, l, line, i)
  }

  ghost predicate NoHardStop(list: seq<Entry>, l: Limits, line: int, n: nat)
    requires n <= |list|
  {
    forall i :: 0 <= i < n ==> !HardStop(list, l, line, i)
  }

  ghost predicate NoMaskStop(list: seq<Entry>, line: int, overflowed: bool, n: nat)
    requires n <= |list|
  {
    forall i :: 0 <= i < n ==> !MaskStop(list, line, overflowed, i)
  }

  /** Position s is where the visible prefix of the list ends: the first stop of any kind, or the list's end. */
  ghost predicate FirstStop(list: seq<Entry>, l: Limits, line: int, overflowed: bool, s: nat) {
    && s <= |list|
    && NoHardStop(list, l, line, s) && NoMaskStop(list, line, overflowed, s)
    && (s < |list| ==> HardStop(list, l, line, s) || MaskStop(list, line, overflowed, s))
  }

  /** How many entries are kept, given the first stop. */
  function Kept(list: seq<Entry>, l: Limits, s: nat): nat
    requires s <= |list|
  {
    if s < |list| && !FrameStop(list, l, s) then s + 1 else s
  }

  /** The last entry to draw. A list that is cut off at its very first entry is taken for one that was never cut off:
      the marker for the cut is the same as for none. */
  function LastDrawn(list: seq<Entry>, l: Limits, s: nat): int
    requires s <= |list|
  {
    if list != [] && FrameStop(list, l, 0) then |list| - 1 else Kept(list, l, s) - 1
  }

  /** The sprite order starts with sprite 0, so that it is never cut off there. */
  lemma LastDrawnOfOrder(mem: seq<Byte>, base: nat, order: seq<int>, interlaced: bool, h40: bool, s: nat)
    requires forall i :: 0 <= i < |order| ==> 0 <= order[i] && base + order[i] * 8 + 8 <= |mem|
    requires order != [] && order[0] == 0 && s <= |order|
    ensures var list := EntriesOf(mem, base, order, interlaced);
            LastDrawn(list, LimitsOf(h40), s) == Kept(list, LimitsOf(h40), s) - 1
  {
    assert EntriesOf(mem, base, order, interlaced)[0].index == order[0];
    hide EntriesOf, Kept;
  }

  /** How many dots the last kept sprite loses, as a number that is not positive. */
  function Trim(list: seq<Entry>, l: Limits, line: int, s: nat): int
    requires s <= |list|
  {
    if s < |list| && !FrameStop(list, l, s) && DotStop(list, l, line, s) then l.dots - DotsUsed(list, line, s + 1)
    else 0
  }

  // ----------------------------------------------------------------------- budget

  ghost predicate Shapes(list: seq<Entry>) {
    forall i :: 0 <= i < |list| ==> list[i].Shape()
  }

  ghost predicate SaneLimits(l: Limits) { l.sprites > 0 && l.dots > 0 && l.dots % 8 == 0 }

  lemma {:induction false} BelowLimits(list: seq<Entry>, l: Limits, line: int, n: nat)
    requires n <= |list| && Shapes(list) && SaneLimits(l) && NoHardStop(list, l, line, n)
    ensures 0 <= DotsUsed(list, line, n) < l.dots && DotsUsed(list, line, n) % 8 == 0
    ensures Count(list, line, n) < l.sprites
  {
    if n > 0 {
      BelowLimits(list, l, line, n - 1);
      assert !HardStop(list, l, line, n - 1);
      assert list[n - 1].Shape();
    }
  }

  /** The per-line budget. Whatever the list, the kept prefix has at most the limit of sprites on the line, and
      their widths after the trim add up to at most the dot limit, exactly to it when the dots ran out.
      The trimmed sprite keeps at least one whole tile column. */
  lemma LineBudget(list: seq<Entry>, l: Limits, line: int, overflowed: bool, s: nat)
    requires Shapes(list) && SaneLimits(l) && FirstStop(list, l, line, overflowed, s)
    ensures Count(list, line, Kept(list, l, s)) <= l.sprites
    ensures DotsUsed(list, line, Kept(list, l, s)) + Trim(list, l, line, s) <= l.dots
    ensures Trim(list, l, line, s) <= 0 && Trim(list, l, line, s) % 8 == 0
    ensures s < |list| && !FrameStop(list, l, s) && DotStop(list, l, line, s) ==>
              && Kept(list, l, s) == s + 1 && DotsUsed(list, line, s + 1) + Trim(list, l, line, s) == l.dots
              && 8 <= list[s].w + Trim(list, l, line, s)
  {
    BelowLimits(list, l, line, s);
    if s < |list| { assert list[s].Shape(); }
  }

  // ------------------------------------------------------------------ the line scan

  /** What the scan knows when it leaves the loop at entry h: no limit was hit before, and `m` is the masking
      sprite found on the way, or -1. The visible prefix ends at whichever comes first. */
  ghost predicate ScannedTo(list: seq<Entry>, l: Limits, line: int, overflowed: bool, h: nat, m: int) {
    && h <= |list| && -1 <= m < h && NoHardStop(list, l, line, h)
    && NoMaskStop(list, line, overflowed, if m == -1 then h else m)
    && (m >= 0 ==> MaskStop(list, line, overflowed, m))
  }

  function StopOf(h: nat, m: int): nat { if m < 0 then h else m }

  lemma ScanExit(list: seq<Entry>, l: Limits, line: int, overflowed: bool, h: nat, m: int)
    requires ScannedTo(list, l, line, overflowed, h, m)
    requires h < |list| ==> HardStop(list, l, line, h)
    ensures FirstStop(list, l, line, overflowed, StopOf(h, m))
    ensures m >= 0 ==> Kept(list, l, m) == m + 1 && Trim(list, l, line, m) == 0
  {
    if m >= 0 { assert !HardStop(list, l, line, m); }
    hide DotStop, CountStop, MaskingEffective;
  }

  lemma ScanNext(list: seq<Entry>, l: Limits, line: int, overflowed: bool, i: nat, m: int)
    requires i < |list| && ScannedTo(list, l, line, overflowed, i, m) && !HardStop(list, l, line, i)
    ensures ScannedTo(list, l, line, overflowed, i + 1, if m == -1 && MaskStop(list, line, overflowed, i) then i else m)
    ensures MaskingEffective(list, line, overflowed, i + 1)
         == (MaskingEffective(list, line, overflowed, i) || (list[i].OnLine(line) && list[i].x != 0))
  {
    hide HardStop;
  }

  lemma HeadNotCut(list: seq<Entry>, l: Limits, line: int, overflowed: bool, h: nat, m: int)
    requires ScannedTo(list, l, line, overflowed, h, m)
    ensures NoHardStop(list, l, line, h) && (h > 0 ==> !FrameStop(list, l, 0))
  {
    if h > 0 { assert !HardStop(list, l, line, 0); }
  }

  lemma NothingBefore(list: seq<Entry>, line: int, overflowed: bool)
    ensures MaskingEffective(list, line, overflowed, 0) == overflowed
  {
  }

  lemma KeptAt(list: seq<Entry>, l: Limits, line: int, h: nat)
    requires h <= |list|
    ensures Kept(list, l, h) == if h < |list| && !FrameStop(list, l, h) then h + 1 else h
    ensures Trim(list, l, line, h) == if h < |list| && !FrameStop(list, l, h) && DotStop(list, l, line, h)
                                      then l.dots - DotsUsed(list, line, h + 1) else 0
  {
  }

  lemma StopsAt(list: seq<Entry>, l: Limits, line: int, i: nat)
    requires i < |list|
    ensures DotStop(list, l, line, i) == (list[i].OnLine(line) && DotsUsed(list, line, i + 1) >= l.dots)
    ensures CountStop(list, l, line, i) == (list[i].OnLine(line) && Count(list, line, i + 1) >= l.sprites)
    ensures HardStop(list, l, line, i)
         == (FrameStop(list, l, i) || DotStop(list, l, line, i) || CountStop(list, l, line, i))
  {
  }

  lemma MaskStopAt(list: seq<Entry>, line: int, overflowed: bool, i: nat)
    requires i < |list|
    ensures MaskStop(list, line, overflowed, i)
         == (list[i].OnLine(line) && list[i].x == 0 && MaskingEffective(list, line, overflowed, i))
  {
  }

  lemma ScanStart(list: seq<Entry>, l: Limits, line: int, overflowed: bool)
    ensures ScannedTo(list, l, line, overflowed, 0, -1)
  {
  }

  class LineLimiter {
    var overflowLine: int
    var maskingIndex: int
    var dots: int
    var overflowBit: bool

    /** Scans the list for one line. `maskingIndex` ends as the last entry to draw and `dots`, when negative,
        as the trim of that entry. The ghost results are the first stop of any kind, and the first limit
        that was hit: a dot overflow is remembered for the next line, a full sprite limit sets the status bit. */
    method SpriteMaskingOverflow(list: seq<Entry>, h40: bool, line: int) returns (ghost s: nat, ghost h: nat)
      requires Shapes(list)
      modifies this
      ensures FirstStop(list, LimitsOf(h40), line, old(overflowLine) == line - 1, s)
      ensures maskingIndex == LastDrawn(list, LimitsOf(h40), s)
      ensures (if dots > 0 then 0 else dots) == Trim(list, LimitsOf(h40), line, s)
      ensures h <= |list| && NoHardStop(list, LimitsOf(h40), line, h)
      ensures (h < |list| ==> HardStop(list, LimitsOf(h40), line, h))
      ensures overflowLine ==
              if h < |list| && !FrameStop(list, LimitsOf(h40), h) && DotStop(list, LimitsOf(h40), line, h) then line
              else old(overflowLine)
      ensures overflowBit ==
              (old(overflowBit)
               || (h < |list| && !FrameStop(list, LimitsOf(h40), h) && !DotStop(list, LimitsOf(h40), line, h)))
    {
      ghost var l, over := LimitsOf(h40), overflowLine == line - 1;
      hide FirstStop, Kept, Trim, MaskingEffective, HardStop, DotStop, CountStop, MaskStop;
      assert overflowLine == line - 1 <==> MaskingEffective(list, line, over, 0) by { NothingBefore(list, line, over); }
      ScanStart(list, l, line, over);
      var index := -1;
      var effective := overflowLine == line - 1;
      var frameLimit, lineLimit, left := 64, 16, 256;
      if h40 { frameLimit, lineLimit, left := 80, 20, 320; }
      hide ScannedTo;
      var i := 0;
      ghost var m := -1;
      while i < |list|
        invariant 0 <= i <= |list| && m == index && index < i
        invariant ScannedTo(list, l, line, over, i, index)
        invariant left == l.dots - DotsUsed(list, line, i) && left > 0
        invariant lineLimit == l.sprites - Count(list, line, i) && lineLimit > 0
        invariant effective == MaskingEffective(list, line, over, i)
        invariant overflowLine == old(overflowLine) && overflowBit == old(overflowBit)
      {
        StopsAt(list, l, line, i);
        MaskStopAt(list, line, over, i);
        var e := list[i];
        if e.index >= frameLimit {
          if index == -1 { index := i - 1; }
          break;
        }
        if !e.OnLine(line) {
          ScanNext(list, l, line, over, i, index);
          i := i + 1;
          continue;
        }
        left := left - e.w;
        lineLimit := lineLimit - 1;
        if e.x != 0 { effective := true; }
        if left <= 0 {
          overflowLine := line;
          if index == -1 { index := i; } else { left := 0; }
          break;
        }
        if lineLimit == 0 {
          if index == -1 { index := i; }
          overflowBit := true;
          break;
        }
        ScanNext(list, l, line, over, i, index);
        if effective && e.x == 0 && index == -1 { index, m := i, i; }
        i := i + 1;
      }
      HeadNotCut(list, l, line, over, i, m);
      s, h := StopOf(i, m), i;
      ScanExit(list, l, line, over, h, m);
      KeptAt(list, l, line, h);
      if index == -1 { index := |list| - 1; }
      maskingIndex := index;
      dots := left;
    }
  }

  // ------------------------------------------------------------------ drawing

  /** One tile line put on the screen: its left edge, the tile attribute word and the line in the tile. */
  datatype Blit = Blit(tx: int, which: int, ty: int)

  predicate OnScreen(tx: int) { -8 < tx < 320 }

  /** The next n tile columns, walking right, or left when flipped: the tiles of a sprite are stored
      column by column, so the attribute moves on by one column's height each time. */
  function ColumnBlits(tx: int, step: int, which: int, height: int, ty: int, n: nat): (b: seq<Blit>)
    requires step == 8 || step == -8
    ensures |b| <= n
    ensures Visible(tx, step, n) ==> |b| == n
    ensures Invisible(tx, step, n) ==> b == []
    decreases n
  {
    if n == 0 then []
    else (if OnScreen(tx) then [Blit(tx, which, ty)] else [])
          + ColumnBlits(tx + step, step, which + height, height, ty, n - 1)
  }

  predicate Visible(tx: int, step: int, n: nat) {
    if step == 8 then tx > -8 && tx + 8 * n < 328 else tx < 320 && tx - 8 * n > -16
  }

  predicate Invisible(tx: int, step: int, n: nat) {
    if step == 8 then tx >= 320 || tx + 8 * n <= 0 else tx <= -8 || tx - 8 * n >= 312
  }

  function ScreenX(e: Entry, h40: bool): int { e.x - 0x80 + if h40 then 0 else 32 }

  /** Tile columns drawn of a sprite that loses `-trim` dots. */
  function Columns(e: Entry, trim: int): nat
    requires e.Shape() && trim % 8 == 0 && -e.w < trim <= 0
  {
    (e.w + trim) / 8
  }

  /** Everything one sprite puts on a line. */
  function SpriteBlits(e: Entry, h40: bool, line: int, trim: int): (b: seq<Blit>)
    requires e.Shape() && trim % 8 == 0 && -e.w < trim <= 0
    ensures |b| <= if e.OnLine(line) then Columns(e, trim) else 0
    ensures e.OnLine(line) && 0 <= ScreenX(e, h40) && ScreenX(e, h40) + e.w <= 320 ==> |b| == Columns(e, trim)
  {
    if !e.OnLine(line) then []
    else
      var x, yoff, height, n := ScreenX(e, h40), line - (e.y - 0x80), e.h / 8, Columns(e, trim);
      var row := if e.which / 0x1000 % 2 == 1 then height - 1 - yoff / 8 else yoff / 8;
      if (e.which + row) / 0x800 % 2 == 1 then ColumnBlits(x + 8 * (n - 1), -8, e.which + row, height, yoff % 8, n)
      else ColumnBlits(x, 8, e.which + row, height, yoff % 8, n)
  }

  /** The flip is looked up after the tile row has been added, so it is the sprite's own exactly as long as the sum
      stays among the 0x800 tiles. */
  lemma FlipIsOwnExactlyWhen(which: int, row: int)
    requires 0 <= which < 0x1_0000 && 0 <= row < 4
    ensures (which + row) / 0x800 % 2 == which / 0x800 % 2 <==> which % 0x800 + row < 0x800
  {
    var q, r := which / 0x800, which % 0x800;
    assert which == 0x800 * q + r;
    if r + row < 0x800 {
      Remainder(which + row, q, 0x800, r + row);
    } else {
      Remainder(which + row, q + 1, 0x800, r + row - 0x800);
    }
  }

  ghost predicate TrimFits(list: seq<Entry>, kept: nat, trim: int) {
    kept <= |list| && trim % 8 == 0 && trim <= 0 && (trim < 0 ==> kept > 0 && -list[kept - 1].w < trim)
  }

  /** The trim that applies to entry i: only the last one drawn is shortened. */
  function TrimOf(kept: nat, trim: int, i: int): int { if i == kept - 1 then trim else 0 }

  /** One pass, over back sprites or front sprites: the kept entries from the last one down to entry i,
      in the order they are drawn. */
  ghost function PassBlits(list: seq<Entry>, h40: bool, line: int, front: bool, kept: nat, trim: int,
      i: nat): (b: seq<Blit>)
    requires Shapes(list) && TrimFits(list, kept, trim) && i <= kept
    decreases kept - i
  {
    if i == kept then []
    else
      PassBlits(list, h40, line, front, kept, trim, i + 1)
      + if list[i].front == front then SpriteBlits(list[i], h40, line, TrimOf(kept, trim, i)) else []
  }

  ghost function PassesTotal(list: seq<Entry>, h40: bool, line: int, kept: nat, trim: int, i: nat): nat
    requires Shapes(list) && TrimFits(list, kept, trim) && i <= kept
  {
    |PassBlits(list, h40, line, false, kept, trim, i)| + |PassBlits(list, h40, line, true, kept, trim, i)|
  }

  /** Every sprite is drawn in exactly one of the two passes. */
  lemma PassStep(list: seq<Entry>, h40: bool, line: int, kept: nat, trim: int, i: nat)
    requires Shapes(list) && TrimFits(list, kept, trim) && i < kept && list[i].Shape()
    ensures PassesTotal(list, h40, line, kept, trim, i)
         == PassesTotal(list, h40, line, kept, trim, i + 1) + |SpriteBlits(list[i], h40, line, TrimOf(kept, trim, i))|
  {
    hide SpriteBlits;
  }

  lemma SpriteDots(e: Entry, h40: bool, line: int, trim: int)
    requires e.Shape() && trim % 8 == 0 && -e.w < trim <= 0
    ensures 8 * |SpriteBlits(e, h40, line, trim)| <= if e.OnLine(line) then e.w + trim else 0
    ensures (e.OnLine(line) ==> 0 <= ScreenX(e, h40) && ScreenX(e, h40) + e.w <= 320) ==>
              8 * |SpriteBlits(e, h40, line, trim)| == if e.OnLine(line) then e.w + trim else 0
  {
    hide SpriteBlits, ScreenX, Entry.OnLine;
  }

  function LastTrim(list: seq<Entry>, line: int, kept: nat, trim: int, i: nat): int
    requires kept <= |list|
  {
    if i < kept && list[kept - 1].OnLine(line) then trim else 0
  }

  /** The dots that the kept entries from entry i on may use. */
  function Budget(list: seq<Entry>, line: int, kept: nat, trim: int, i: nat): int
    requires i <= kept <= |list|
  {
    DotsUsed(list, line, kept) - DotsUsed(list, line, i) + LastTrim(list, line, kept, trim, i)
  }

  /** The share of entry i in it. */
  function Share(list: seq<Entry>, line: int, kept: nat, trim: int, i: nat): int
    requires i < |list|
  {
    if list[i].OnLine(line) then list[i].w + TrimOf(kept, trim, i) else 0
  }

  lemma BudgetStep(list: seq<Entry>, line: int, kept: nat, trim: int, i: nat)
    requires i < kept <= |list|
    ensures Budget(list, line, kept, trim, i)
         == Budget(list, line, kept, trim, i + 1) + Share(list, line, kept, trim, i)
  {
  }

  ghost predicate OnLineOnScreen(list: seq<Entry>, h40: bool, line: int, n: nat)
    requires n <= |list|
  {
    forall i :: 0 <= i < n && list[i].OnLine(line) ==>
              0 <= ScreenX(list[i], h40) && ScreenX(list[i], h40) + list[i].w <= 320
  }

  lemma SharesOf(list: seq<Entry>, h40: bool, line: int, kept: nat, trim: int, i: nat)
    requires Shapes(list) && TrimFits(list, kept, trim) && i < kept <= |list|
    ensures 8 * PassesTotal(list, h40, line, kept, trim, i)
         <= 8 * PassesTotal(list, h40, line, kept, trim, i + 1) + Share(list, line, kept, trim, i)
    ensures var left := 8 * PassesTotal(list, h40, line, kept, trim, i + 1) + Share(list, line, kept, trim, i);
            OnLineOnScreen(list, h40, line, kept) ==> 8 * PassesTotal(list, h40, line, kept, trim, i) == left
  {
    assert list[i].Shape();
    hide SpriteBlits, PassesTotal, Columns, ScreenX;
    PassStep(list, h40, line, kept, trim, i);
    SpriteDots(list[i], h40, line, TrimOf(kept, trim, i));
  }

  lemma NothingToPass(list: seq<Entry>, h40: bool, line: int, kept: nat, trim: int)
    requires Shapes(list) && TrimFits(list, kept, trim) && kept <= |list|
    ensures PassesTotal(list, h40, line, kept, trim, kept) == 0 == Budget(list, line, kept, trim, kept)
  {
  }

  lemma {:induction false} PassesWithinUsed(list: seq<Entry>, h40: bool, line: int, kept: nat, trim: int, i: nat)
    requires Shapes(list) && TrimFits(list, kept, trim) && i <= kept <= |list|
    ensures 8 * PassesTotal(list, h40, line, kept, trim, i) <= Budget(list, line, kept, trim, i)
    decreases kept - i
  {
    hide *;
    if i < kept {
      PassesWithinUsed(list, h40, line, kept, trim, i + 1);
      SharesOf(list, h40, line, kept, trim, i);
      BudgetStep(list, line, kept, trim, i);
    } else {
      NothingToPass(list, h40, line, kept, trim);
    }
  }

  /** Over both priority passes a line never draws more dots than the limit of its mode. */
  lemma DrawnWithinLimit(list: seq<Entry>, h40: bool, line: int, overflowed: bool, s: nat)
    requires Shapes(list) && FirstStop(list, LimitsOf(h40), line, overflowed, s)
    ensures var kept, trim := Kept(list, LimitsOf(h40), s), Trim(list, LimitsOf(h40), line, s);
            TrimFits(list, kept, trim) && 8 * PassesTotal(list, h40, line, kept, trim, 0) <= LimitsOf(h40).dots
  {
    var l := LimitsOf(h40);
    LineBudget(list, l, line, overflowed, s);
    var kept, trim := Kept(list, l, s), Trim(list, l, line, s);
    assert TrimFits(list, kept, trim);
    PassesWithinUsed(list, h40, line, kept, trim, 0);
    hide PassesTotal, FirstStop;
  }

  /** In numbers: at most 20 sprites and 320 dots of a line in the wide mode, 16 and 256 in the narrow one. */
  lemma LineInNumbers(list: seq<Entry>, h40: bool, line: int, overflowed: bool, s: nat)
    requires Shapes(list) && FirstStop(list, LimitsOf(h40), line, overflowed, s)
    ensures var kept, trim := Kept(list, LimitsOf(h40), s), Trim(list, LimitsOf(h40), line, s);
            && TrimFits(list, kept, trim) && Count(list, line, kept) <= (if h40 then 20 else 16)
            && 8 * PassesTotal(list, h40, line, kept, trim, 0) <= if h40 then 320 else 256
  {
    DrawnWithinLimit(list, h40, line, overflowed, s);
    LineBudget(list, LimitsOf(h40), line, overflowed, s);
    hide FirstStop, Kept, Trim, PassesTotal, Count;
  }

  lemma {:induction false} PassesUseAll(list: seq<Entry>, h40: bool, line: int, kept: nat, trim: int, i: nat)
    requires Shapes(list) && TrimFits(list, kept, trim) && i <= kept <= |list| && OnLineOnScreen(list, h40, line, kept)
    ensures 8 * PassesTotal(list, h40, line, kept, trim, i) == Budget(list, line, kept, trim, i)
    decreases kept - i
  {
    hide *;
    if i < kept {
      PassesUseAll(list, h40, line, kept, trim, i + 1);
      SharesOf(list, h40, line, kept, trim, i);
      BudgetStep(list, line, kept, trim, i);
    } else {
      NothingToPass(list, h40, line, kept, trim);
    }
  }

  /** When the dots run out and nothing is clipped at the screen edges, the two passes draw exactly the limit. */
  lemma DrawnExactlyLimit(list: seq<Entry>, h40: bool, line: int, overflowed: bool, s: nat)
    requires Shapes(list) && FirstStop(list, LimitsOf(h40), line, overflowed, s)
    requires s < |list| && !FrameStop(list, LimitsOf(h40), s) && DotStop(list, LimitsOf(h40), line, s)
    requires OnLineOnScreen(list, h40, line, s + 1)
    ensures var trim := Trim(list, LimitsOf(h40), line, s);
            TrimFits(list, s + 1, trim) && 8 * PassesTotal(list, h40, line, s + 1, trim, 0) == LimitsOf(h40).dots
  {
    var l := LimitsOf(h40);
    LineBudget(list, l, line, overflowed, s);
    PassesUseAll(list, h40, line, s + 1, Trim(list, l, line, s), 0);
    hide PassesTotal, FirstStop;
  }

  /** What entry i puts on the line, if its turn comes. */
  ghost function BlitsOf(list: seq<Entry>, h40: bool, line: int, front: bool, kept: nat, trim: int, i: nat): seq<Blit>
    requires Shapes(list) && TrimFits(list, kept, trim) && i < kept
  {
    TrimOfFits(list, kept, trim, i);
    if list[i].front == front then SpriteBlits(list[i], h40, line, TrimOf(kept, trim, i)) else []
  }

  /** Nothing is drawn that is not of its owner, and owners come in turn from the last one down to entry i. */
  ghost predicate OwnersInTurn(list: seq<Entry>, h40: bool, line: int, front: bool, kept: nat, trim: int, i: nat,
      blits: seq<Blit>, owners: seq<nat>)
    requires Shapes(list) && TrimFits(list, kept, trim)
  {
    && |owners| == |blits|
    && (forall k :: 0 <= k < |owners| ==> i <= owners[k] < kept)
    && (forall j, k :: 0 <= j < k < |owners| ==> owners[k] <= owners[j])
    && forall k :: 0 <= k < |owners| ==> blits[k] in BlitsOf(list, h40, line, front, kept, trim, owners[k])
  }

  ghost predicate IsDrawn(b: Blit, o: nat, blits: seq<Blit>, owners: seq<nat>) {
    exists k :: 0 <= k < |blits| && k < |owners| && blits[k] == b && owners[k] == o
  }

  /** Nothing is left out. */
  ghost predicate AllDrawn(list: seq<Entry>, h40: bool, line: int, front: bool, kept: nat, trim: int, i: nat,
      blits: seq<Blit>, owners: seq<nat>)
    requires Shapes(list) && TrimFits(list, kept, trim)
  {
    forall o: nat, b: Blit :: i <= o < kept && b in BlitsOf(list, h40, line, front, kept, trim, o) ==>
      IsDrawn(b, o, blits, owners)
  }

  function Times(i: nat, n: nat): (s: seq<nat>)
    ensures |s| == n && forall k :: 0 <= k < n ==> s[k] == i
  {
    seq(n, k => i)
  }

  lemma NextInTurn(list: seq<Entry>, h40: bool, line: int, front: bool, kept: nat, trim: int, i: nat,
      blits: seq<Blit>, owners: seq<nat>, b: seq<Blit>)
    requires Shapes(list) && TrimFits(list, kept, trim) && i < kept
    requires OwnersInTurn(list, h40, line, front, kept, trim, i + 1, blits, owners)
    requires b == BlitsOf(list, h40, line, front, kept, trim, i)
    ensures OwnersInTurn(list, h40, line, front, kept, trim, i, blits + b, owners + Times(i, |b|))
  {
    hide BlitsOf, Shapes, TrimFits, Times;
  }

  lemma StillDrawn(c: Blit, o: nat, blits: seq<Blit>, owners: seq<nat>, b: seq<Blit>, more: seq<nat>)
    requires |blits| == |owners| && |b| == |more|
    requires IsDrawn(c, o, blits, owners) || IsDrawn(c, o, b, more)
    ensures IsDrawn(c, o, blits + b, owners + more)
  {
    if IsDrawn(c, o, blits, owners) {
      var k :| 0 <= k < |blits| && k < |owners| && blits[k] == c && owners[k] == o;
      assert (blits + b)[k] == c && (owners + more)[k] == o;
    } else {
      var k :| 0 <= k < |b| && k < |more| && b[k] == c && more[k] == o;
      assert (blits + b)[|blits| + k] == c && (owners + more)[|blits| + k] == o;
    }
  }

  lemma NextDrawn(list: seq<Entry>, h40: bool, line: int, front: bool, kept: nat, trim: int, i: nat,
      blits: seq<Blit>, owners: seq<nat>, b: seq<Blit>)
    requires Shapes(list) && TrimFits(list, kept, trim) && i < kept && |blits| == |owners|
    requires AllDrawn(list, h40, line, front, kept, trim, i + 1, blits, owners)
    requires b == BlitsOf(list, h40, line, front, kept, trim, i)
    ensures AllDrawn(list, h40, line, front, kept, trim, i, blits + b, owners + Times(i, |b|))
  {
    hide BlitsOf, Shapes, TrimFits, Times, IsDrawn;
    forall o: nat, c: Blit | i <= o < kept && c in BlitsOf(list, h40, line, front, kept, trim, o)
      ensures IsDrawn(c, o, blits + b, owners + Times(i, |b|))
    {
      if o == i { OwnBlits(c, i, b); }
      StillDrawn(c, o, blits, owners, b, Times(i, |b|));
    }
  }

  lemma OwnBlits(c: Blit, i: nat, b: seq<Blit>)
    requires c in b
    ensures IsDrawn(c, i, b, Times(i, |b|))
  {
  }

  /** One priority pass of the drawing loop. The ghost result says whose each tile line is: positions never increase, so
      that what comes first in the list is drawn last. */
  method DrawSprites(list: seq<Entry>, h40: bool, line: int, front: bool, maskingIndex: int, dotsCache: int)
    returns (blits: seq<Blit>, ghost owners: seq<nat>)
    requires Shapes(list) && -1 <= maskingIndex
    requires TrimFits(list, maskingIndex + 1, if dotsCache > 0 then 0 else dotsCache)
    ensures blits == PassBlits(list, h40, line, front, maskingIndex + 1, if dotsCache > 0 then 0 else dotsCache, 0)
    ensures var trim := if dotsCache > 0 then 0 else dotsCache;
            && OwnersInTurn(list, h40, line, front, maskingIndex + 1, trim, 0, blits, owners)
            && AllDrawn(list, h40, line, front, maskingIndex + 1, trim, 0, blits, owners)
  {
    var dots := if dotsCache > 0 then 0 else dotsCache;
    ghost var trim := dots;
    ghost var kept: nat := maskingIndex + 1;
    NothingDrawn(list, h40, line, front, kept, trim);
    hide SpriteBlits, Columns, TrimFits, TrimOf, Shapes, BlitsOf, OwnersInTurn, AllDrawn, PassBlits;
    blits, owners := [], [];
    var i := maskingIndex;
    while i >= 0
      invariant -1 <= i <= maskingIndex
      invariant dots == if i == maskingIndex then trim else 0
      invariant blits == PassBlits(list, h40, line, front, kept, trim, i + 1)
      invariant |blits| == |owners|
      invariant OwnersInTurn(list, h40, line, front, kept, trim, i + 1, blits, owners)
      invariant AllDrawn(list, h40, line, front, kept, trim, i + 1, blits, owners)
    {
      TrimOfFits(list, kept, trim, i);
      PassAt(list, h40, line, front, kept, trim, i);
      ghost var turn := BlitsOf(list, h40, line, front, kept, trim, i);
      NextInTurn(list, h40, line, front, kept, trim, i, blits, owners, turn);
      NextDrawn(list, h40, line, front, kept, trim, i, blits, owners, turn);
      owners := owners + Times(i, |turn|);
      ghost var drawn := blits + turn;
      if list[i].front == front {
        var b := DrawSprite(list[i], h40, line, dots);
        blits := blits + b;
      }
      assert blits == drawn;
      dots := 0;
      i := i - 1;
    }
  }

  lemma NothingDrawn(list: seq<Entry>, h40: bool, line: int, front: bool, kept: nat, trim: int)
    requires Shapes(list) && TrimFits(list, kept, trim)
    ensures PassBlits(list, h40, line, front, kept, trim, kept) == []
    ensures OwnersInTurn(list, h40, line, front, kept, trim, kept, [], [])
    ensures AllDrawn(list, h40, line, front, kept, trim, kept, [], [])
  {
    hide BlitsOf, Shapes, TrimFits;
  }

  lemma PassAt(list: seq<Entry>, h40: bool, line: int, front: bool, kept: nat, trim: int, i: nat)
    requires Shapes(list) && TrimFits(list, kept, trim) && i < kept && list[i].Shape()
    requires TrimOf(kept, trim, i) % 8 == 0 && -list[i].w < TrimOf(kept, trim, i) <= 0
    ensures PassBlits(list, h40, line, front, kept, trim, i)
         == PassBlits(list, h40, line, front, kept, trim, i + 1) + BlitsOf(list, h40, line, front, kept, trim, i)
    ensures BlitsOf(list, h40, line, front, kept, trim, i)
         == if list[i].front == front then SpriteBlits(list[i], h40, line, TrimOf(kept, trim, i)) else []
  {
    hide SpriteBlits, TrimOf;
  }

  lemma TrimOfFits(list: seq<Entry>, kept: nat, trim: int, i: nat)
    requires Shapes(list) && TrimFits(list, kept, trim) && i < kept
    ensures list[i].Shape() && TrimOf(kept, trim, i) % 8 == 0 && -list[i].w < TrimOf(kept, trim, i) <= 0
    ensures TrimOf(kept, trim, i) == if i == kept - 1 then trim else 0
  {
    assert list[i].Shape();
  }

  lemma BlitsAre(e: Entry, h40: bool, line: int, trim: int)
    requires e.Shape() && trim % 8 == 0 && -e.w < trim <= 0 && e.OnLine(line)
    ensures var x, yoff, height, n := ScreenX(e, h40), line - (e.y - 0x80), e.h / 8, Columns(e, trim);
      var which := e.which + if e.which / 0x1000 % 2 == 1 then height - 1 - yoff / 8 else yoff / 8;
      SpriteBlits(e, h40, line, trim)
      == if which / 0x800 % 2 == 1 then ColumnBlits(x + 8 * n - 8, -8, which, height, yoff % 8, n)
         else ColumnBlits(x, 8, which, height, yoff % 8, n)
  {
    hide ColumnBlits, ScreenX, Columns;
  }

  lemma NoBlits(e: Entry, h40: bool, line: int, trim: int)
    requires e.Shape() && trim % 8 == 0 && -e.w < trim <= 0
    requires !e.OnLine(line) || ScreenX(e, h40) + 8 * Columns(e, trim) <= 0 || ScreenX(e, h40) >= 320
    ensures SpriteBlits(e, h40, line, trim) == []
  {
    hide ScreenX;
  }

  method DrawSprite(e: Entry, h40: bool, line: int, trim: int) returns (blits: seq<Blit>)
    requires e.Shape() && trim % 8 == 0 && -e.w < trim <= 0
    ensures blits == SpriteBlits(e, h40, line, trim)
  {
    hide ColumnBlits, SpriteBlits;
    blits := [];
    var x, yoff := ScreenX(e, h40), line - (e.y - 0x80);
    var xend, ysize, which := e.w - 8 + x + trim, (e.h - 8) / 8, e.which;
    ghost var n := Columns(e, trim);
    assert xend == x + 8 * n - 8;
    if xend > -8 && x < 320 && yoff >= 0 && yoff <= ysize * 8 + 7 {
      var ty := yoff % 8;
      which := which + if e.which / 0x1000 % 2 == 1 then ysize - yoff / 8 else yoff / 8;
      ysize := ysize + 1;
      if which / 0x800 % 2 == 1 {
        blits := DrawColumns(xend, x, -8, which, ysize, ty, n);
      } else {
        blits := DrawColumns(x, xend, 8, which, ysize, ty, n);
      }
      BlitsAre(e, h40, line, trim);
    } else {
      NoBlits(e, h40, line, trim);
    }
  }

  lemma FirstBlit(tx: int, step: int, which: int, height: int, ty: int, n: nat)
    requires (step == 8 || step == -8) && n > 0
    ensures ColumnBlits(tx, step, which, height, ty, n)
         == (if OnScreen(tx) then [Blit(tx, which, ty)] else [])
               + ColumnBlits(tx + step, step, which + height, height, ty, n - 1)
  {
  }

  lemma NoColumns(tx: int, step: int, which: int, height: int, ty: int)
    requires step == 8 || step == -8
    ensures ColumnBlits(tx, step, which, height, ty, 0) == []
  {
  }

  /** The inner loop of both flip cases, from the first tile column to the last. */
  method DrawColumns(first: int, last: int, step: int, which0: int, height: int, ty: int, ghost n: nat)
    returns (blits: seq<Blit>)
    requires (step == 8 && last == first + 8 * n - 8) || (step == -8 && last == first - 8 * n + 8)
    ensures blits == ColumnBlits(first, step, which0, height, ty, n)
  {
    hide ColumnBlits;
    ghost var all := ColumnBlits(first, step, which0, height, ty, n);
    blits := [];
    var tx, which := first, which0;
    ghost var left: nat := n;
    while if step > 0 then tx <= last else tx >= last
      invariant last == if step > 0 then tx + 8 * left - 8 else tx - 8 * left + 8
      invariant blits + ColumnBlits(tx, step, which, height, ty, left) == all
      decreases left
    {
      ghost var rest := ColumnBlits(tx + step, step, which + height, height, ty, left - 1);
      FirstBlit(tx, step, which, height, ty, left);
      if OnScreen(tx) {
        assert blits + ([Blit(tx, which, ty)] + rest) == blits + [Blit(tx, which, ty)] + rest;
        blits := blits + [Blit(tx, which, ty)];
      } else {
        assert [] + rest == rest;
      }
      which := which + height;
      tx := tx + step;
      left := left - 1;
    }
    NoColumns(tx, step, which, height, ty);
  }
}
