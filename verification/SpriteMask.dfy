/** The sprite priority mask of the VDP (ras.cpp), in non-interlaced mode.

    The mask is a 512x512 byte area, kept flat as the source walks it: a destination pointer moves
    through the cells of one sprite rectangle tile column by tile column, with its direction set by
    the flip bits. The reference is positional: which cells a sprite covers and which of its dots
    are opaque there. */
module SpriteMask {
  import opened MachineWords

  const PITCH := 512
  const AREA := PITCH * 512
  const UNCOVERED := 0xff

  /** A decoded sprite, with its position already moved into the mask area. */
  datatype Sprite = Sprite(x: int, y: int, tw: int, th: int, prio: bool, xflip: bool, yflip: bool, tile: nat)
  {
    function W(): int { tw * 8 }
    function H(): int { th * 8 }

    predicate Shape() { 1 <= tw <= 4 && 1 <= th <= 4 }

    /** Inside the mask area. */
    predicate Inside() { Shape() && 0 <= x && x + W() <= PITCH && 0 <= y && y + H() <= 512 }

    /** The tile data lies inside the memory it is read from. */
    predicate Backed(mem: seq<Byte>) { Shape() && tile + 4 * tw * (th * 8) <= |mem| }

    function Column(u: int): int { if xflip then x + W() - 1 - u else x + u }
    function Row(v: int): int { if yflip then y + H() - 1 - v else y + v }
  }

  function At(mem: seq<Byte>, a: nat): (b: int)
    requires a < |mem|
    ensures 0 <= b < 0x100
  {
    mem[a]
  }

  function WordAt(mem: seq<Byte>, a: nat): (w: int)
    requires a + 2 <= |mem|
    ensures 0 <= w < 0x1_0000
  {
    At(mem, a) * 0x100 + At(mem, a + 1)
  }

  /** Decodes the eight-byte attribute entry at `a`. */
  function SpriteInfo(mem: seq<Byte>, a: nat, h40: bool): (s: Sprite)
    requires a + 8 <= |mem|
    ensures s.Shape() && s.tile <= 0x7ff * 32
    ensures -0x80 <= s.x < 0x1a0 && -0x80 <= s.y < 0x180
  {
    var prop := WordAt(mem, a + 4);
    Sprite(WordAt(mem, a + 6) % 0x200 - 0x80 + if h40 then 0 else 32, WordAt(mem, a) % 0x200 - 0x80,
           mem[a + 2] / 4 % 4 + 1, mem[a + 2] % 4 + 1,
           prop / 0x8000 == 1, prop / 0x800 % 2 == 1, prop / 0x1000 % 2 == 1, prop % 0x800 * 32)
  }

  /** Off every displayed line and column: not worth painting. */
  predicate Hidden(s: Sprite) {
    s.x >= 320 || s.x + s.W() < 0 || s.y >= 256 || s.y + s.H() < 0
  }

  function Shifted(s: Sprite): Sprite { s.(x := s.x + 0x80, y := s.y + 0x80) }

  /** A sprite that passes the visibility test always fits the mask area: the source's bounds
      assertions can never fire. */
  lemma VisibleFits(mem: seq<Byte>, a: nat, h40: bool)
    requires a + 8 <= |mem| && !Hidden(SpriteInfo(mem, a, h40))
    ensures Shifted(SpriteInfo(mem, a, h40)).Inside()
  {
  }

  // -------------------------------------------------------------------- reference

  /** Whether dot (u, v) of the unflipped sprite picture is opaque: tiles are stored column by column,
      four bytes a line, two dots a byte, the left one in the high nibble. */
  predicate OpaqueDot(mem: seq<Byte>, s: Sprite, u: int, v: int)
    requires s.Backed(mem) && 0 <= u < s.W() && 0 <= v < s.H()
  {
    DotAddressInRange(s, u, v);
    OpaqueNibble(mem, s.tile + 4 * (u / 8 * s.H() + v), u % 8)
  }

  lemma DotAddressInRange(s: Sprite, u: int, v: int)
    requires s.Shape() && 0 <= u < s.W() && 0 <= v < s.H()
    ensures 0 <= 4 * (u / 8 * s.H() + v) && 4 * (u / 8 * s.H() + v) + 4 <= 4 * s.tw * (s.th * 8)
  {
    var c, h := u / 8, s.H();
    assert c <= s.tw - 1;
    assert c * h <= (s.tw - 1) * h by { assert (s.tw - 1 - c) * h >= 0; }
    assert (s.tw - 1) * h + h == s.tw * h;
    assert c * h >= 0;
  }

  /** Whether the sprite shows an opaque dot in a cell, under its flips. */
  predicate Covers(mem: seq<Byte>, s: Sprite, row: int, col: int)
    requires s.Backed(mem)
  {
    && s.x <= col < s.x + s.W() && s.y <= row < s.y + s.H()
    && OpaqueDot(mem, s, if s.xflip then s.x + s.W() - 1 - col else col - s.x,
                 if s.yflip then s.y + s.H() - 1 - row else row - s.y)
  }

  // -------------------------------------------------------------------- painting

  /** One line of a tile, as the 32-bit word the source loads in big-endian order. */
  function Dots(mem: seq<Byte>, a: nat): (d: int)
    requires a + 4 <= |mem|
    ensures 0 <= d < 0x1_0000_0000
  {
    At(mem, a) * 0x100_0000 + At(mem, a + 1) * 0x1_0000 + At(mem, a + 2) * 0x100 + At(mem, a + 3)
  }

  /** The k-th dot of a tile line: two dots a byte, the left one in the high nibble. */
  function Nibble(mem: seq<Byte>, a: nat, k: int): (n: int)
    requires a + 4 <= |mem| && 0 <= k < 8
    ensures 0 <= n < 16
  {
    if k % 2 == 0 then At(mem, a + k / 2) / 16 else At(mem, a + k / 2) % 16
  }

  predicate OpaqueNibble(mem: seq<Byte>, a: nat, k: int)
    requires a + 4 <= |mem| && 0 <= k < 8
  {
    Nibble(mem, a, k) != 0
  }

  /** What is left of the word after k four-bit left shifts in 32 bits. */
  function ShiftedDots(mem: seq<Byte>, a: nat, k: int): int
    requires a + 4 <= |mem| && 0 <= k <= 8
  {
    var n := (j: int) requires 0 <= j < 8 => Nibble(mem, a, j);
    match k
    case 0 =>
      n(0) * 0x10000000 + n(1) * 0x1000000
      + n(2) * 0x100000 + n(3) * 0x10000 + n(4) * 0x1000 + n(5) * 0x100 + n(6) * 0x10 + n(7) * 0x1
    case 1 =>
      n(1) * 0x10000000 + n(2) * 0x1000000
      + n(3) * 0x100000 + n(4) * 0x10000 + n(5) * 0x1000 + n(6) * 0x100 + n(7) * 0x10
    case 2 => n(2) * 0x10000000 + n(3) * 0x1000000 + n(4) * 0x100000 + n(5) * 0x10000 + n(6) * 0x1000 + n(7) * 0x100
    case 3 => n(3) * 0x10000000 + n(4) * 0x1000000 + n(5) * 0x100000 + n(6) * 0x10000 + n(7) * 0x1000
    case 4 => n(4) * 0x10000000 + n(5) * 0x1000000 + n(6) * 0x100000 + n(7) * 0x10000
    case 5 => n(5) * 0x10000000 + n(6) * 0x1000000 + n(7) * 0x100000
    case 6 => n(6) * 0x10000000 + n(7) * 0x1000000
    case 7 => n(7) * 0x10000000
    case 8 => 0
  }

  lemma NoShift(mem: seq<Byte>, a: nat)
    requires a + 4 <= |mem|
    ensures Dots(mem, a) == ShiftedDots(mem, a, 0)
  {
  }

  /** Shifting by one dot drops the dot just looked at; the top four bits always hold the next one. */
  lemma NextShift(mem: seq<Byte>, a: nat, k: int)
    requires a + 4 <= |mem| && 0 <= k < 8
    ensures 0 <= ShiftedDots(mem, a, k + 1) < 0x1_0000_0000
    ensures ShiftedDots(mem, a, k) * 16 == Nibble(mem, a, k) * 0x1_0000_0000 + ShiftedDots(mem, a, k + 1)
  {
    hide Nibble;
  }

  lemma DropTop(d: int, n: int, rest: int)
    requires d * 16 == n * 0x1_0000_0000 + rest && 0 <= rest < 0x1_0000_0000
    ensures d * 16 % 0x1_0000_0000 == rest
    ensures d >= 0x1000_0000 <==> n > 0
  {
  }

  function Cell(row: int, col: int): int { row * PITCH + col }

  /** How many steps of the walk lead from cell `start` to cell `i`. */
  function Along(i: int, start: int, unit: int): int { if unit > 0 then i - start else start - i }

  /** The first n dots of a tile line are painted over the area `m`, from `dest` in the direction of `unit`. */
  ghost predicate LinePainted(m: seq<Byte>, m': seq<Byte>, dest: int, unit: int, mem: seq<Byte>, a: nat, n: nat,
      value: Byte)
    requires a + 4 <= |mem| && n <= 8
  {
    && |m'| == |m|
    && forall i :: 0 <= i < |m| ==>
         m'[i] == if 0 <= Along(i, dest, unit) < n && OpaqueNibble(mem, a, Along(i, dest, unit)) then value else m[i]
  }

  lemma NoDotYet(m: seq<Byte>, dest: int, unit: int, mem: seq<Byte>, a: nat, value: Byte)
    requires a + 4 <= |mem|
    ensures LinePainted(m, m, dest, unit, mem, a, 0, value)
  {
  }

  lemma NextDot(m: seq<Byte>, m': seq<Byte>, dest: int, unit: int, mem: seq<Byte>, a: nat, n: nat, value: Byte)
    requires a + 4 <= |mem| && n < 8 && (unit == 1 || unit == -1) && 0 <= dest + n * unit < |m'|
    requires LinePainted(m, m', dest, unit, mem, a, n, value)
    ensures var next := if OpaqueNibble(mem, a, n) then m'[dest + n * unit := value] else m';
            LinePainted(m, next, dest, unit, mem, a, n + 1, value)
  {
    assert Along(dest + n * unit, dest, unit) == n;
    hide OpaqueNibble;
  }

  /** Paints one tile line: eight dots from `dest0` in the direction of `unit`. */
  method PaintLine(mask: array<Byte>, dest0: int, unit: int, mem: seq<Byte>, a: nat, value: Byte) returns (dest: int)
    requires a + 4 <= |mem| && (unit == 1 || unit == -1)
    requires 0 <= dest0 < mask.Length && 0 <= dest0 + 7 * unit < mask.Length
    modifies mask
    ensures dest == dest0 + 8 * unit
    ensures LinePainted(old(mask[..]), mask[..], dest0, unit, mem, a, 8, value)
  {
    hide Nibble, ShiftedDots, Dots, LinePainted;
    ghost var m := mask[..];
    NoShift(mem, a);
    NoDotYet(m, dest0, unit, mem, a, value);
    dest := dest0;
    var dots := Dots(mem, a);
    for tmp := 0 to 8
      invariant dest == dest0 + tmp * unit && dots == ShiftedDots(mem, a, tmp)
      invariant LinePainted(m, mask[..], dest0, unit, mem, a, tmp, value)
    {
      NextDot(m, mask[..], dest0, unit, mem, a, tmp, value);
      dots := PaintDot(mask, dest, dots, mem, a, tmp, value);
      dest := dest + unit;
    }
  }

  method PaintDot(mask: array<Byte>, dest: int, dots0: int, mem: seq<Byte>, a: nat, tmp: nat, value: Byte)
    returns (dots: int)
    requires a + 4 <= |mem| && tmp < 8 && 0 <= dest < mask.Length && dots0 == ShiftedDots(mem, a, tmp)
    modifies mask
    ensures dots == ShiftedDots(mem, a, tmp + 1)
    ensures mask[..] == if OpaqueNibble(mem, a, tmp) then old(mask[..])[dest := value] else old(mask[..])
  {
    hide Nibble, ShiftedDots;
    NextShift(mem, a, tmp);
    DropTop(dots0, Nibble(mem, a, tmp), ShiftedDots(mem, a, tmp + 1));
    if dots0 >= 0x1000_0000 {
      mask[dest] := value;
    }
    dots := dots0 * 16 % 0x1_0000_0000;
  }

  /** Painting in progress: the sprite's tile columns before `cb`, and the first `r` lines of column `cb`. */
  predicate CoversUpTo(mem: seq<Byte>, s: Sprite, cb: int, r: int, row: int, col: int)
    requires s.Backed(mem)
  {
    && Covers(mem, s, row, col)
    && var u := if s.xflip then s.x + s.W() - 1 - col else col - s.x;
       var v := if s.yflip then s.y + s.H() - 1 - row else row - s.y;
       u / 8 < cb || (u / 8 == cb && v < r)
  }

  function Unit(s: Sprite): int { if s.xflip then -1 else 1 }

  function LineStart(s: Sprite, cb: int, r: int): int { Cell(s.Row(r), s.Column(8 * cb)) }

  /** A line of eight dots occupies exactly the cells of its row and tile column: the flat indices never
      run into a neighbouring row. */
  lemma LineCells(s: Sprite, cb: int, r: int, row: int, col: int)
    requires s.Inside() && 0 <= cb < s.tw && 0 <= r < s.H()
    requires 0 <= row < 512 && 0 <= col < PITCH
    ensures var k := Along(Cell(row, col), LineStart(s, cb, r), Unit(s));
            var u := if s.xflip then s.x + s.W() - 1 - col else col - s.x;
            var v := if s.yflip then s.y + s.H() - 1 - row else row - s.y;
            && (0 <= k < 8 <==> v == r && 8 * cb <= u < 8 * cb + 8)
            && (0 <= k < 8 ==> k == u % 8 && u / 8 == cb)
  {
    var k := Along(Cell(row, col), LineStart(s, cb, r), Unit(s));
    var d := row - s.Row(r);
    assert Cell(row, col) - LineStart(s, cb, r) == d * PITCH + (col - s.Column(8 * cb));
    if 0 <= k < 8 {
      assert d == 0;
    }
  }

  lemma LineStep(mem: seq<Byte>, s: Sprite, cb: int, r: int, row: int, col: int)
    requires s.Inside() && s.Backed(mem) && 0 <= cb < s.tw && 0 <= r < s.H()
    requires 0 <= row < 512 && 0 <= col < PITCH
    requires s.tile + 4 * (cb * s.H() + r) + 4 <= |mem| && 0 <= s.tile + 4 * (cb * s.H() + r)
    ensures var k := Along(Cell(row, col), LineStart(s, cb, r), Unit(s));
            var here := 0 <= k < 8 && OpaqueNibble(mem, s.tile + 4 * (cb * s.H() + r), k);
            && CoversUpTo(mem, s, cb, r + 1, row, col) == (here || CoversUpTo(mem, s, cb, r, row, col))
  {
    LineCells(s, cb, r, row, col);
    hide Nibble, OpaqueNibble, Cell, LineStart, Along, Unit;
  }

  ghost predicate InArea(row: int, col: int) { 0 <= row < 512 && 0 <= col < PITCH }

  ghost predicate PaintedUpTo(m0: seq<Byte>, m: seq<Byte>, mem: seq<Byte>, s: Sprite, cb: int, r: int, value: Byte)
    requires s.Backed(mem)
  {
    && |m| == |m0| == AREA
    && forall row, col :: InArea(row, col) ==>
         m[Cell(row, col)] == if CoversUpTo(mem, s, cb, r, row, col) then value else m0[Cell(row, col)]
  }

  lemma PaintStep(m0: seq<Byte>, m: seq<Byte>, m': seq<Byte>, mem: seq<Byte>, s: Sprite, cb: int, r: int, value: Byte)
    requires s.Inside() && s.Backed(mem) && 0 <= cb < s.tw && 0 <= r < s.H()
    requires 0 <= s.tile + 4 * (cb * s.H() + r) && s.tile + 4 * (cb * s.H() + r) + 4 <= |mem|
    requires PaintedUpTo(m0, m, mem, s, cb, r, value)
    requires LinePainted(m, m', LineStart(s, cb, r), Unit(s), mem, s.tile + 4 * (cb * s.H() + r), 8, value)
    ensures PaintedUpTo(m0, m', mem, s, cb, r + 1, value)
  {
    forall row, col | InArea(row, col)
      ensures m'[Cell(row, col)] == if CoversUpTo(mem, s, cb, r + 1, row, col) then value else m0[Cell(row, col)]
    {
      LineStep(mem, s, cb, r, row, col);
      hide CoversUpTo, OpaqueNibble, LineStart, Along, Unit;
      assert 0 <= Cell(row, col) < AREA;
    }
  }

  lemma PaintNothing(m: seq<Byte>, mem: seq<Byte>, s: Sprite, value: Byte)
    requires s.Backed(mem) && |m| == AREA
    ensures PaintedUpTo(m, m, mem, s, 0, 0, value)
  {
    hide OpaqueDot;
  }

  lemma PaintedColumn(m0: seq<Byte>, m: seq<Byte>, mem: seq<Byte>, s: Sprite, cb: int, value: Byte)
    requires s.Backed(mem) && PaintedUpTo(m0, m, mem, s, cb, s.H(), value)
    ensures PaintedUpTo(m0, m, mem, s, cb + 1, 0, value)
  {
    hide OpaqueDot;
  }

  /** The walk visits every line of every tile column, so nothing of the sprite is left out. */
  lemma PaintedAll(m0: seq<Byte>, m: seq<Byte>, mem: seq<Byte>, s: Sprite, value: Byte)
    requires s.Backed(mem) && PaintedUpTo(m0, m, mem, s, s.tw, 0, value)
    ensures forall row, col :: InArea(row, col) ==>
              m[Cell(row, col)] == if Covers(mem, s, row, col) then value else m0[Cell(row, col)]
  {
    hide OpaqueDot;
  }

  lemma LineAddress(s: Sprite, cb: int, r: int)
    requires s.Shape() && 0 <= cb < s.tw && 0 <= r < s.H()
    ensures 0 <= 4 * (cb * s.H() + r) && 4 * (cb * s.H() + r) + 4 <= 4 * s.tw * (s.th * 8)
  {
    DotAddressInRange(s, 8 * cb, r);
  }

  function Pitch(s: Sprite): int { if s.yflip then -PITCH else PITCH }

  lemma NextLine(s: Sprite, cb: int, r: int)
    ensures LineStart(s, cb, r) + Pitch(s) == LineStart(s, cb, r + 1)
  {
  }

  lemma NextColumn(s: Sprite, cb: int)
    ensures LineStart(s, cb, s.H() - 1) + 8 * Unit(s) - Pitch(s) * (s.H() - 1) == LineStart(s, cb + 1, 0)
    ensures cb * s.H() + s.H() == (cb + 1) * s.H()
  {
  }

  lemma FirstLine(s: Sprite)
    ensures s.x + PITCH * s.y + (if s.yflip then PITCH * (s.H() - 1) else 0) + (if s.xflip then s.W() - 1 else 0)
         == LineStart(s, 0, 0)
  {
  }

  /** Where the walk stands before its k-th word: tile column `cb`, tile `wrap` of the column, its line `line`. */
  ghost predicate WalkAt(s: Sprite, cb: int, wrap: int, line: int, k: int, dest: int) {
    && 0 <= cb <= s.tw && 0 <= line < 8 && 0 <= wrap < s.th
    && (cb == s.tw ==> wrap == line == 0)
    && k == cb * s.H() + (wrap * 8 + line)
    && dest == LineStart(s, cb, wrap * 8 + line)
  }

  /** The pointer arithmetic between two words: down one line, or back up to the next tile column. */
  method NextWord(s: Sprite, dest0: int, line0: int, wrap0: int, pitch: int, unit: int, ghost cb0: int, ghost k: int)
    returns (dest: int, line: int, wrap: int, ghost cb: int)
    requires s.Inside() && pitch == Pitch(s) && unit == Unit(s) && cb0 < s.tw
    requires WalkAt(s, cb0, wrap0, line0, k, dest0 - 8 * unit)
    ensures WalkAt(s, cb, wrap, line, k + 1, dest)
    ensures if wrap0 * 8 + line0 + 1 == s.H() then cb == cb0 + 1 && wrap == line == 0
            else cb == cb0 && wrap * 8 + line == wrap0 * 8 + line0 + 1
  {
    NextLine(s, cb0, wrap0 * 8 + line0);
    NextColumn(s, cb0);
    hide Pitch, Unit, LineStart;
    dest, line, wrap, cb := dest0, line0, wrap0, cb0;
    line := line + 1;
    if line == 8 {
      line := 0;
      wrap := wrap + 1;
      if wrap == s.th {
        dest := dest - pitch * (s.H() - 1);
        wrap := 0;
        cb := cb + 1;
      } else {
        dest := dest + (pitch - 8 * unit);
      }
    } else {
      dest := dest - 8 * unit;
      dest := dest + pitch;
    }
  }

  /** Paints `value` over exactly the opaque dots of one sprite. The destination pointer goes down a tile
      column line by line and back up to the next one; it never leaves the area while it is used. */
  method SpriteMaskAdd(mask: array<Byte>, mem: seq<Byte>, s: Sprite, value: Byte)
    requires mask.Length == AREA && s.Inside() && s.Backed(mem)
    modifies mask
    ensures forall row, col :: InArea(row, col) ==>
              mask[Cell(row, col)] == if Covers(mem, s, row, col) then value else old(mask[Cell(row, col)])
  {
    ghost var m0 := mask[..];
    PaintNothing(m0, mem, s, value);
    var tile, len, line, wrap := s.tile, s.tw * s.H(), 0, 0;
    var dest, pitch, unit := WalkStart(s);
    hide Covers, CoversUpTo, OpaqueNibble, PaintedUpTo, LineStart, Unit, Pitch, Along;
    ghost var cb, k := 0, 0;
    while len > 0
      invariant WalkAt(s, cb, wrap, line, k, dest)
      invariant len == s.tw * s.H() - k && tile == s.tile + 4 * k
      invariant PaintedUpTo(m0, mask[..], mem, s, cb, wrap * 8 + line, value)
    {
      NotFinished(s, cb, wrap * 8 + line);
      tile := PaintWord(mask, m0, mem, s, dest, unit, tile, value, cb, wrap * 8 + line);
      dest, line, wrap, cb := NextWord(s, dest + 8 * unit, line, wrap, pitch, unit, cb, k);
      PaintedNext(m0, mask[..], mem, s, cb, wrap * 8 + line, value);
      len, k := len - 1, k + 1;
    }
    WholeSprite(s, cb, wrap * 8 + line);
    PaintedAll(m0, mask[..], mem, s, value);
  }

  method WalkStart(s: Sprite) returns (dest: int, pitch: int, unit: int)
    requires s.Inside()
    ensures pitch == Pitch(s) && unit == Unit(s) && WalkAt(s, 0, 0, 0, 0, dest)
  {
    FirstLine(s);
    unit, pitch := 1, PITCH;
    dest := s.x + pitch * s.y;
    if s.yflip {
      dest := dest + pitch * (s.H() - 1);
      pitch := -pitch;
    }
    if s.xflip {
      dest := dest + (s.W() - 1);
      unit := -unit;
    }
  }

  /** One word of the walk: its line is painted and the tile pointer moves on. */
  method PaintWord(mask: array<Byte>, ghost m0: seq<Byte>, mem: seq<Byte>, s: Sprite, dest: int, unit: int, tile0: int,
                   value: Byte, ghost cb: int, ghost r: int)
    returns (tile: int)
    requires mask.Length == AREA && s.Inside() && s.Backed(mem) && 0 <= cb < s.tw && 0 <= r < s.H()
    requires dest == LineStart(s, cb, r) && unit == Unit(s) && tile0 == s.tile + 4 * (cb * s.H() + r)
    requires PaintedUpTo(m0, mask[..], mem, s, cb, r, value)
    modifies mask
    ensures tile == tile0 + 4 && PaintedUpTo(m0, mask[..], mem, s, cb, r + 1, value)
  {
    LineAddress(s, cb, r);
    LineInArea(s, cb, r);
    hide Covers, CoversUpTo, OpaqueNibble, PaintedUpTo, LinePainted, LineStart, Unit, Along;
    ghost var m := mask[..];
    var end := PaintLine(mask, dest, unit, mem, tile0, value);
    PaintStep(m0, m, mask[..], mem, s, cb, r, value);
    tile := tile0 + 4;
  }

  lemma NotFinished(s: Sprite, cb: int, r: int)
    requires s.Shape() && 0 <= cb <= s.tw && 0 <= r < s.H() && (cb == s.tw ==> r == 0)
    requires cb * s.H() + r < s.tw * s.H()
    ensures cb < s.tw
  {
  }

  lemma PaintedNext(m0: seq<Byte>, m: seq<Byte>, mem: seq<Byte>, s: Sprite, cb: int, r: int, value: Byte)
    requires s.Backed(mem) && 0 <= cb && 0 <= r < s.H()
    requires if r == 0 then PaintedUpTo(m0, m, mem, s, cb - 1, s.H(), value)
             else PaintedUpTo(m0, m, mem, s, cb, r, value)
    ensures PaintedUpTo(m0, m, mem, s, cb, r, value)
  {
    if r == 0 { PaintedColumn(m0, m, mem, s, cb - 1, value); }
    hide *;
  }

  lemma LineInArea(s: Sprite, cb: int, r: int)
    requires s.Inside() && 0 <= cb < s.tw && 0 <= r < s.H()
    ensures Unit(s) == 1 || Unit(s) == -1
    ensures 0 <= LineStart(s, cb, r) < AREA && 0 <= LineStart(s, cb, r) + 7 * Unit(s) < AREA
  {
  }

  lemma WholeSprite(s: Sprite, cb: int, r: int)
    requires s.Shape() && 0 <= cb <= s.tw && 0 <= r < s.H() && (cb == s.tw ==> r == 0)
    requires cb * s.H() + r >= s.tw * s.H()
    ensures cb == s.tw && r == 0
  {
    if cb < s.tw {
      LineAddress(s, cb, r);
    }
  }

  // ------------------------------------------------------------------ the whole mask

  /** The sprite list: entry i of the frame's order, decoded from the attribute table at `base`. */
  function SpriteAt(mem: seq<Byte>, base: nat, order: seq<Byte>, h40: bool, i: nat): (s: Sprite)
    requires i < |order| && base + At(order, i) * 8 + 8 <= |mem|
    ensures s.Shape()
  {
    SpriteInfo(mem, base + At(order, i) * 8, h40)
  }

  /** Only sprites with the low priority bit that can be seen take part in the mask. */
  predicate Paints(s: Sprite) { !s.prio && !Hidden(s) }

  ghost predicate ListBacked(mem: seq<Byte>, base: nat, order: seq<Byte>, h40: bool) {
    forall i: nat {:trigger At(order, i)} :: i < |order| ==>
      base + At(order, i) * 8 + 8 <= |mem|
      && (Paints(SpriteAt(mem, base, order, h40, i)) ==> SpriteAt(mem, base, order, h40, i).Backed(mem))
  }

  /** Whether list entry i shows an opaque low-priority dot in a cell of the mask area. */
  ghost predicate Shows(mem: seq<Byte>, base: nat, order: seq<Byte>, h40: bool, i: nat, row: int, col: int)
    requires ListBacked(mem, base, order, h40) && i < |order|
  {
    var s := SpriteAt(mem, base, order, h40, i);
    Paints(s) && Covers(mem, Shifted(s), row, col)
  }

  /** The first list entry from `lo` on that shows in the cell. */
  ghost function FrontSprite(mem: seq<Byte>, base: nat, order: seq<Byte>, h40: bool, lo: nat, row: int,
      col: int): (f: int)
    requires ListBacked(mem, base, order, h40) && lo <= |order| <= UNCOVERED
    ensures 0 <= f <= UNCOVERED
    decreases |order| - lo
  {
    if lo == |order| then UNCOVERED
    else if Shows(mem, base, order, h40, lo, row, col) then lo
    else FrontSprite(mem, base, order, h40, lo + 1, row, col)
  }

  /** It is the smallest list position that shows there, and `UNCOVERED` exactly when none does. */
  lemma {:induction false} FrontSpriteIsSmallest(mem: seq<Byte>, base: nat, order: seq<Byte>, h40: bool, lo: nat,
      row: int, col: int)
    requires ListBacked(mem, base, order, h40) && lo <= |order| <= UNCOVERED
    ensures var f := FrontSprite(mem, base, order, h40, lo, row, col);
            && (f < UNCOVERED ==> lo <= f < |order| && Shows(mem, base, order, h40, f, row, col))
            && (forall j :: lo <= j < |order| && j < f ==> !Shows(mem, base, order, h40, j, row, col))
    ensures FrontSprite(mem, base, order, h40, lo, row, col) == UNCOVERED
       <==> forall j :: lo <= j < |order| ==> !Shows(mem, base, order, h40, j, row, col)
    decreases |order| - lo
  {
    hide Shows;
    if lo < |order| {
      FrontSpriteIsSmallest(mem, base, order, h40, lo + 1, row, col);
    }
  }

  ghost predicate MaskFrom(m: seq<Byte>, mem: seq<Byte>, base: nat, order: seq<Byte>, h40: bool, lo: nat)
    requires ListBacked(mem, base, order, h40) && lo <= |order| <= UNCOVERED
  {
    |m| == AREA && forall row, col :: InArea(row, col) ==>
      m[Cell(row, col)] == FrontSprite(mem, base, order, h40, lo, row, col)
  }

  lemma SkipEntry(m: seq<Byte>, mem: seq<Byte>, base: nat, order: seq<Byte>, h40: bool, i: nat)
    requires ListBacked(mem, base, order, h40) && i < |order| <= UNCOVERED
    requires MaskFrom(m, mem, base, order, h40, i + 1) && !Paints(SpriteAt(mem, base, order, h40, i))
    ensures MaskFrom(m, mem, base, order, h40, i)
  {
    hide Covers, SpriteAt, Paints;
  }

  lemma PaintEntry(m: seq<Byte>, m': seq<Byte>, mem: seq<Byte>, base: nat, order: seq<Byte>, h40: bool, i: nat)
    requires ListBacked(mem, base, order, h40) && i < |order| <= UNCOVERED
    requires MaskFrom(m, mem, base, order, h40, i + 1) && |m'| == AREA
    requires var s := SpriteAt(mem, base, order, h40, i);
             Paints(s) && forall row, col :: InArea(row, col) ==>
               m'[Cell(row, col)] == if Covers(mem, Shifted(s), row, col) then i else m[Cell(row, col)]
    ensures MaskFrom(m', mem, base, order, h40, i)
  {
    hide Covers, SpriteAt, Paints;
  }

  /** Rebuilds the mask. Painting back to front leaves in every cell the smallest list position among the
      low-priority sprites with an opaque dot there, and `UNCOVERED` where there is none. */
  method SpriteMaskGenerate(mask: array<Byte>, mem: seq<Byte>, base: nat, order: seq<Byte>, h40: bool)
    requires mask.Length == AREA && |order| <= UNCOVERED && ListBacked(mem, base, order, h40)
    modifies mask
    ensures forall row, col :: InArea(row, col) ==>
              mask[Cell(row, col)] == FrontSprite(mem, base, order, h40, 0, row, col)
  {
    forall i | 0 <= i < mask.Length { mask[i] := UNCOVERED; }
    NothingPainted(mask[..], mem, base, order, h40);
    hide FrontSprite, ListBacked, MaskFrom;
    var i := |order| - 1;
    while i >= 0
      invariant -1 <= i < |order|
      invariant MaskFrom(mask[..], mem, base, order, h40, i + 1)
    {
      PaintSprite(mask, mem, base, order, h40, i);
      i := i - 1;
    }
    MaskMeans(mask[..], mem, base, order, h40);
  }

  /** One entry of the list, over all that come after it. */
  method PaintSprite(mask: array<Byte>, mem: seq<Byte>, base: nat, order: seq<Byte>, h40: bool, i: nat)
    requires mask.Length == AREA && i < |order| <= UNCOVERED && ListBacked(mem, base, order, h40)
    requires MaskFrom(mask[..], mem, base, order, h40, i + 1)
    modifies mask
    ensures MaskFrom(mask[..], mem, base, order, h40, i)
  {
    EntryBacked(mem, base, order, h40, i);
    hide Covers, FrontSprite, SpriteInfo, Hidden, ListBacked, MaskFrom;
    var info := SpriteInfo(mem, base + At(order, i) * 8, h40);
    if info.prio {
      SkipEntry(mask[..], mem, base, order, h40, i);
    } else if Hidden(info) {
      SkipEntry(mask[..], mem, base, order, h40, i);
    } else {
      VisibleFits(mem, base + At(order, i) * 8, h40);
      ghost var m := mask[..];
      SpriteMaskAdd(mask, mem, info.(x := info.x + 0x80, y := info.y + 0x80), i);
      PaintEntry(m, mask[..], mem, base, order, h40, i);
    }
  }

  lemma MaskMeans(m: seq<Byte>, mem: seq<Byte>, base: nat, order: seq<Byte>, h40: bool)
    requires ListBacked(mem, base, order, h40) && |order| <= UNCOVERED && MaskFrom(m, mem, base, order, h40, 0)
    ensures |m| == AREA && forall row, col :: InArea(row, col) ==>
              m[Cell(row, col)] == FrontSprite(mem, base, order, h40, 0, row, col)
  {
    hide FrontSprite, ListBacked;
  }

  lemma NothingPainted(m: seq<Byte>, mem: seq<Byte>, base: nat, order: seq<Byte>, h40: bool)
    requires ListBacked(mem, base, order, h40) && |order| <= UNCOVERED
    requires |m| == AREA && forall i :: 0 <= i < AREA ==> m[i] == UNCOVERED
    ensures MaskFrom(m, mem, base, order, h40, |order|)
  {
  }

  lemma EntryBacked(mem: seq<Byte>, base: nat, order: seq<Byte>, h40: bool, i: nat)
    requires ListBacked(mem, base, order, h40) && i < |order|
    ensures base + At(order, i) * 8 + 8 <= |mem|
    ensures var s := SpriteAt(mem, base, order, h40, i); Paints(s) ==> Shifted(s).Backed(mem)
  {
  }
}
