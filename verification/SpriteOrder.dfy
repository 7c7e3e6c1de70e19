/** Which sprite is seen in a cell of the screen (ras.cpp): the picture that the tile lines of one sprite make up, what
    ends up on top in one pass, and how the priority mask joins the two passes. */
module SpriteOrder {
  import opened MachineWords
  import opened SpriteMask
  import opened SpriteLimits
  import TileBlit

  const VRAM := 0x1_0000

  // ---------------------------------------------------------------------- one tile line

  predicate Reaches(b: Blit, col: int) { b.tx <= col < b.tx + 8 }

  /** Where the tile line is read. */
  function LineAddress(b: Blit): (a: nat)
    requires 0 <= b.ty < 8
    ensures a + 4 <= VRAM
  {
    b.which % 0x800 * 32 + 4 * if b.which / 0x1000 % 2 == 1 then 7 - b.ty else b.ty
  }

  /** The dot of the tile line that a screen column shows. */
  function DotAt(b: Blit, col: int): (k: int)
    requires Reaches(b, col)
    ensures 0 <= k < 8
  {
    if b.which / 0x800 % 2 == 1 then 7 - (col - b.tx) else col - b.tx
  }

  predicate DrawsDot(mem: seq<Byte>, b: Blit, col: int)
    requires |mem| == VRAM
  {
    0 <= b.ty < 8 && Reaches(b, col) && OpaqueNibble(mem, LineAddress(b), DotAt(b, col))
  }

  lemma NibbleOfByte(b: bv8)
    ensures (b >> 4) as bv32 == 0 <==> (b as int) / 16 == 0
    ensures (b & 0xf) as bv32 == 0 <==> (b as int) % 16 == 0
  {
  }

  lemma NibbleIsNumber(mem: seq<Byte>, a: nat, b: seq<bv8>, k: int)
    requires a + 4 <= |mem| && |b| == 4 && 0 <= k < 8 && mem[a + k / 2] == b[k / 2] as int
    ensures TileBlit.NibbleOf(b, k) as bv32 == 0 <==> Nibble(mem, a, k) == 0
  {
    NibbleOfByte(b[k / 2]);
  }

  /** What the mask takes for a dot is what the blitter draws: the nibbles of the reference are the dots of the word
      that it loads. */
  lemma DotsAreDrawn(mem: seq<Byte>, a: nat, b: seq<bv8>, xflip: bool, p: int)
    requires a + 4 <= |mem| && |b| == 4 && (forall j :: 0 <= j < 4 ==> mem[a + j] == b[j] as int) && 0 <= p < 8
    ensures TileBlit.Shown(TileBlit.Load(b), xflip, p) != 0
       <==> OpaqueNibble(mem, a, if xflip then 7 - p else p)
  {
    hide TileBlit.Shown, TileBlit.Load, TileBlit.NibbleOf, Nibble;
    TileBlit.ShownIsNibble(b, xflip, p);
    NibbleIsNumber(mem, a, b, if xflip then 7 - p else p);
  }

  // ------------------------------------------------------------------- one sprite

  /** The sprite that an entry stands for, with what the dot limit leaves of its columns. */
  function SpriteOf(e: Entry, h40: bool, trim: int): (s: Sprite)
    requires e.Shape() && trim % 8 == 0 && -e.w < trim <= 0
    ensures s.Shape()
  {
    Sprite(e.x - 0x80 + (if h40 then 0 else 32), e.y - 0x80, (e.w + trim) / 8, e.h / 8, e.front,
           e.which / 0x800 % 2 == 1, e.which / 0x1000 % 2 == 1, if e.which < 0 then 0 else e.which % 0x800 * 32)
  }

  /** The tiles of the sprite do not run over the end of VRAM. */
  predicate TilesFit(e: Entry) {
    0 <= e.which < 0x1_0000 && e.which % 0x800 + e.w / 8 * (e.h / 8) <= 0x800
  }

  function ColumnBlit(tx: int, step: int, which: int, height: int, ty: int, c: int): Blit {
    Blit(tx + step * c, which + height * c, ty)
  }

  ghost predicate IsColumn(tx: int, step: int, which: int, height: int, ty: int, n: nat, b: Blit) {
    exists c :: 0 <= c < n && b == ColumnBlit(tx, step, which, height, ty, c) && OnScreen(b.tx)
  }

  lemma {:induction false} ColumnBlitsAre(tx: int, step: int, which: int, height: int, ty: int, n: nat, b: Blit)
    requires step == 8 || step == -8
    ensures b in ColumnBlits(tx, step, which, height, ty, n) <==> IsColumn(tx, step, which, height, ty, n, b)
    decreases n
  {
    if n == 0 {
      NoColumns(tx, step, which, height, ty);
    } else {
      FirstBlit(tx, step, which, height, ty, n);
      ColumnBlitsAre(tx + step, step, which + height, height, ty, n - 1, b);
      ShiftedColumns(tx, step, which, height, ty, n, b);
    }
    hide ColumnBlits, ColumnBlit;
  }

  lemma ShiftedColumns(tx: int, step: int, which: int, height: int, ty: int, n: nat, b: Blit)
    requires n > 0
    ensures IsColumn(tx, step, which, height, ty, n, b)
       <==> (b == Blit(tx, which, ty) && OnScreen(tx))
            || IsColumn(tx + step, step, which + height, height, ty, n - 1, b)
  {
    hide OnScreen, ColumnBlit;
    FirstColumn(tx, step, which, height, ty);
    if IsColumn(tx, step, which, height, ty, n, b) {
      var c :| 0 <= c < n && b == ColumnBlit(tx, step, which, height, ty, c) && OnScreen(b.tx);
      if c > 0 { ShiftOne(tx, step, which, height, ty, c - 1); }
    }
    if IsColumn(tx + step, step, which + height, height, ty, n - 1, b) {
      var next, w := tx + step, which + height;
      var c :| 0 <= c < n - 1 && b == ColumnBlit(next, step, w, height, ty, c) && OnScreen(b.tx);
      ShiftOne(tx, step, which, height, ty, c);
    }
  }

  lemma FirstColumn(tx: int, step: int, which: int, height: int, ty: int)
    ensures ColumnBlit(tx, step, which, height, ty, 0) == Blit(tx, which, ty)
  {
  }

  lemma ShiftOne(tx: int, step: int, which: int, height: int, ty: int, c: int)
    ensures ColumnBlit(tx + step, step, which + height, height, ty, c) == ColumnBlit(tx, step, which, height, ty, c + 1)
  {
  }

  // ------------------------------------------------------------- the picture of a sprite

  /** The tile of column c and tile row r, and the bits above it. */
  lemma TileInSprite(e: Entry, c: int, r: int)
    requires e.Shape() && TilesFit(e) && 0 <= c < e.w / 8 && 0 <= r < e.h / 8
    ensures var which := e.which + r + e.h / 8 * c;
            && which % 0x800 == e.which % 0x800 + r + e.h / 8 * c
            && which / 0x800 == e.which / 0x800 && which / 0x1000 == e.which / 0x1000
  {
    var m, h, q, t := e.w / 8, e.h / 8, e.which / 0x800, e.which % 0x800;
    Below(c, m, h, r);
    assert e.which == q * 0x800 + t;
    Remainder(e.which + r + h * c, q, 0x800, t + r + h * c);
    Halved(e.which);
    Halved(e.which + r + h * c);
  }

  lemma Below(c: int, m: int, h: int, r: int)
    requires 0 <= c < m && 0 <= r < h
    ensures 0 <= r + h * c < m * h
  {
    Grows(c + 1, m, h);
    Grows(0, c, h);
    hide *;
  }

  lemma Grows(a: int, b: int, h: int)
    requires a <= b && 0 <= h
    ensures a * h <= b * h && a * h + h == (a + 1) * h && h * a == a * h && h * b == b * h && 0 * h == 0
  {
  }

  lemma Halved(x: int)
    requires x >= 0
    ensures x / 0x1000 == x / 0x800 / 2
  {
  }

  /** Which dot of the unflipped picture a cell on the sprite shows. */
  function PictureColumn(s: Sprite, col: int): int { if s.xflip then s.x + s.W() - 1 - col else col - s.x }

  function PictureRow(s: Sprite, row: int): int { if s.yflip then s.y + s.H() - 1 - row else row - s.y }

  /** Where column c of the sprite starts on the screen. */
  function FirstX(s: Sprite): int { if s.xflip then s.x + 8 * (s.tw - 1) else s.x }

  function StepX(s: Sprite): int { if s.xflip then -8 else 8 }

  lemma ColumnReaches(s: Sprite, c: int, col: int)
    requires s.Shape() && 0 <= c < s.tw
    ensures var tx := FirstX(s) + StepX(s) * c;
            && (tx <= col < tx + 8 <==> 8 * c <= PictureColumn(s, col) < 8 * c + 8)
            && PictureColumn(s, col) - 8 * c == (if s.xflip then 7 - (col - tx) else col - tx)
            && (0 <= col < 320 && tx <= col < tx + 8 ==> OnScreen(tx))
  {
  }

  /** How far down the sprite a line is, and the tile row that the source picks for it. */
  function Down(e: Entry, line: int): int { line - (e.y - 0x80) }

  function TileRow(e: Entry, line: int): int {
    if e.which / 0x1000 % 2 == 1 then e.h / 8 - 1 - Down(e, line) / 8 else Down(e, line) / 8
  }

  lemma RowsOf(e: Entry, h40: bool, line: int, trim: int)
    requires e.Shape() && trim % 8 == 0 && -e.w < trim <= 0 && e.OnLine(line)
    ensures var s, v := SpriteOf(e, h40, trim), PictureRow(SpriteOf(e, h40, trim), line);
            && 0 <= v < s.H() && 0 <= TileRow(e, line) < e.h / 8 && 0 <= Down(e, line) % 8 < 8
            && v == 8 * TileRow(e, line) + if s.yflip then 7 - Down(e, line) % 8 else Down(e, line) % 8
  {
  }

  lemma FlipOfRow(e: Entry, r: int)
    requires e.Shape() && TilesFit(e) && 0 <= r < e.h / 8
    ensures (e.which + r) / 0x800 == e.which / 0x800
  {
    TileInSprite(e, 0, r);
  }

  /** The source's way to say where the columns of a sprite are. */
  lemma ColumnsOf(e: Entry, h40: bool, trim: int)
    requires e.Shape() && trim % 8 == 0 && -e.w < trim <= 0
    ensures var s, n := SpriteOf(e, h40, trim), Columns(e, trim);
            && s.tw == n && StepX(s) == (if e.which / 0x800 % 2 == 1 then -8 else 8)
            && FirstX(s) == ScreenX(e, h40) + if e.which / 0x800 % 2 == 1 then 8 * n - 8 else 0
  {
  }

  lemma TileRowIs(e: Entry, line: int)
    ensures var yoff := line - (e.y - 0x80);
            && Down(e, line) == yoff
            && TileRow(e, line) == if e.which / 0x1000 % 2 == 1 then e.h / 8 - 1 - yoff / 8 else yoff / 8
  {
  }

  lemma BlitsInOrder(e: Entry, h40: bool, line: int, trim: int)
    requires e.Shape() && trim % 8 == 0 && -e.w < trim <= 0 && TilesFit(e) && e.OnLine(line)
    ensures var s := SpriteOf(e, h40, trim);
            SpriteBlits(e, h40, line, trim)
            == ColumnBlits(FirstX(s), StepX(s), e.which + TileRow(e, line), e.h / 8, Down(e, line) % 8, s.tw)
  {
    hide *;
    BlitsAre(e, h40, line, trim);
    RowsOf(e, h40, line, trim);
    TileRowIs(e, line);
    FlipOfRow(e, TileRow(e, line));
    ColumnsOf(e, h40, trim);
  }

  lemma SpriteBlitsAre(e: Entry, h40: bool, line: int, trim: int, b: Blit)
    requires e.Shape() && trim % 8 == 0 && -e.w < trim <= 0 && TilesFit(e) && e.OnLine(line)
    ensures var s := SpriteOf(e, h40, trim);
            b in SpriteBlits(e, h40, line, trim)
            <==> IsColumn(FirstX(s), StepX(s), e.which + TileRow(e, line), e.h / 8, Down(e, line) % 8, s.tw, b)
  {
    hide ColumnBlits, IsColumn, SpriteBlits, TilesFit, SpriteOf, TileRow, Down, FirstX;
    var s := SpriteOf(e, h40, trim);
    BlitsInOrder(e, h40, line, trim);
    ColumnBlitsAre(FirstX(s), StepX(s), e.which + TileRow(e, line), e.h / 8, Down(e, line) % 8, s.tw, b);
  }

  /** The tile line at column c reads the word that holds the sprite's dots there. */
  lemma AddressInSprite(e: Entry, h40: bool, line: int, trim: int, c: int)
    requires e.Shape() && trim % 8 == 0 && -e.w < trim <= 0 && TilesFit(e) && e.OnLine(line)
    requires 0 <= c < (e.w + trim) / 8
    ensures var s := SpriteOf(e, h40, trim);
            var b := ColumnBlit(FirstX(s), StepX(s), e.which + TileRow(e, line), e.h / 8, Down(e, line) % 8, c);
            && 0 <= b.ty < 8 && (b.which / 0x800 % 2 == 1) == s.xflip
            && LineAddress(b) == s.tile + 4 * (c * s.H() + PictureRow(s, line))
  {
    RowsOf(e, h40, line, trim);
    TileInSprite(e, c, TileRow(e, line));
    assert c * (e.h / 8 * 8) == 8 * (e.h / 8 * c);
    hide TileRow, Down, Entry.OnLine, PictureRow, FirstX, StepX;
  }

  lemma FitsInVram(e: Entry, h40: bool, trim: int, mem: seq<Byte>)
    requires e.Shape() && trim % 8 == 0 && -e.w < trim <= 0 && TilesFit(e) && |mem| == VRAM
    ensures SpriteOf(e, h40, trim).Backed(mem)
  {
    var n, m, h := (e.w + trim) / 8, e.w / 8, e.h / 8;
    Grows(n, m, h);
    ThirtyTwo(n, h);
    hide Sprite.Shape, Entry.Shape;
  }

  lemma ThirtyTwo(n: int, h: int)
    ensures 4 * n * (h * 8) == 32 * (n * h)
  {
  }

  /** A tile line draws the dots of its column of the picture. */
  lemma DotInSprite(mem: seq<Byte>, e: Entry, h40: bool, line: int, trim: int, c: int, col: int)
    requires |mem| == VRAM && e.Shape() && trim % 8 == 0 && -e.w < trim <= 0 && TilesFit(e) && e.OnLine(line)
    requires 0 <= c < (e.w + trim) / 8 && SpriteOf(e, h40, trim).Backed(mem)
    ensures var s := SpriteOf(e, h40, trim);
            var u, v := PictureColumn(s, col), PictureRow(s, line);
            var b := ColumnBlit(FirstX(s), StepX(s), e.which + TileRow(e, line), e.h / 8, Down(e, line) % 8, c);
            && 0 <= v < s.H()
            && (Reaches(b, col) <==> 8 * c <= u < 8 * c + 8)
            && (Reaches(b, col) && 0 <= col < 320 ==> OnScreen(b.tx))
            && (Reaches(b, col) ==> 0 <= u < s.W() && u / 8 == c && DrawsDot(mem, b, col) == OpaqueDot(mem, s, u, v))
  {
    RowsOf(e, h40, line, trim);
    ColumnReaches(SpriteOf(e, h40, trim), c, col);
    AddressInSprite(e, h40, line, trim, c);
    hide PictureColumn, PictureRow, OpaqueNibble, LineAddress, FirstX, StepX, TileRow, Down, Entry.OnLine, TilesFit;
  }

  /** On each column of the screen the tile lines of a sprite draw a dot exactly where the reference says that the
      sprite has one: at its place, under its flips, of its own tiles, shortened by what the dot limit takes away. */
  lemma Picture(mem: seq<Byte>, e: Entry, h40: bool, line: int, trim: int, col: int)
    requires |mem| == VRAM && e.Shape() && trim % 8 == 0 && -e.w < trim <= 0 && TilesFit(e) && 0 <= col < 320
    ensures SpriteOf(e, h40, trim).Backed(mem)
    ensures (exists b :: b in SpriteBlits(e, h40, line, trim) && DrawsDot(mem, b, col))
       <==> Covers(mem, SpriteOf(e, h40, trim), line, col)
  {
    FitsInVram(e, h40, trim, mem);
    if e.OnLine(line) {
      forall b | b in SpriteBlits(e, h40, line, trim) && DrawsDot(mem, b, col)
        ensures Covers(mem, SpriteOf(e, h40, trim), line, col)
      {
        DrawnIsCovered(mem, e, h40, line, trim, col, b);
      }
      if Covers(mem, SpriteOf(e, h40, trim), line, col) {
        var b := CoveredIsDrawn(mem, e, h40, line, trim, col);
      }
    } else {
      NoBlits(e, h40, line, trim);
      NotOnLine(mem, e, h40, line, trim, col);
    }
    hide *;
  }

  lemma NotOnLine(mem: seq<Byte>, e: Entry, h40: bool, line: int, trim: int, col: int)
    requires e.Shape() && trim % 8 == 0 && -e.w < trim <= 0 && SpriteOf(e, h40, trim).Backed(mem) && !e.OnLine(line)
    ensures !Covers(mem, SpriteOf(e, h40, trim), line, col)
  {
    hide OpaqueDot;
  }

  lemma CoversIs(mem: seq<Byte>, s: Sprite, row: int, col: int)
    requires s.Backed(mem)
    ensures Covers(mem, s, row, col)
       <==> var u, v := PictureColumn(s, col), PictureRow(s, row);
            0 <= u < s.W() && 0 <= v < s.H() && OpaqueDot(mem, s, u, v)
  {
    hide OpaqueDot;
  }

  lemma DrawnIsCovered(mem: seq<Byte>, e: Entry, h40: bool, line: int, trim: int, col: int, b: Blit)
    requires |mem| == VRAM && e.Shape() && trim % 8 == 0 && -e.w < trim <= 0 && TilesFit(e) && 0 <= col < 320
    requires SpriteOf(e, h40, trim).Backed(mem) && e.OnLine(line)
    requires b in SpriteBlits(e, h40, line, trim) && DrawsDot(mem, b, col)
    ensures Covers(mem, SpriteOf(e, h40, trim), line, col)
  {
    var s := SpriteOf(e, h40, trim);
    var first, step, which, ty := FirstX(s), StepX(s), e.which + TileRow(e, line), Down(e, line) % 8;
    SpriteBlitsAre(e, h40, line, trim, b);
    var c :| 0 <= c < s.tw && b == ColumnBlit(first, step, which, e.h / 8, ty, c) && OnScreen(b.tx);
    DotInSprite(mem, e, h40, line, trim, c, col);
    CoversIs(mem, s, line, col);
    hide Covers, OpaqueDot, OpaqueNibble, PictureColumn, PictureRow, SpriteBlits, FirstX, StepX, TileRow, Down;
    hide TilesFit;
  }

  lemma CoveredIsDrawn(mem: seq<Byte>, e: Entry, h40: bool, line: int, trim: int, col: int) returns (b: Blit)
    requires |mem| == VRAM && e.Shape() && trim % 8 == 0 && -e.w < trim <= 0 && TilesFit(e) && 0 <= col < 320
    requires SpriteOf(e, h40, trim).Backed(mem) && e.OnLine(line)
    requires Covers(mem, SpriteOf(e, h40, trim), line, col)
    ensures b in SpriteBlits(e, h40, line, trim) && DrawsDot(mem, b, col)
  {
    var s := SpriteOf(e, h40, trim);
    CoversIs(mem, s, line, col);
    var c := PictureColumn(s, col) / 8;
    b := ColumnBlit(FirstX(s), StepX(s), e.which + TileRow(e, line), e.h / 8, Down(e, line) % 8, c);
    DotInSprite(mem, e, h40, line, trim, c, col);
    SpriteBlitsAre(e, h40, line, trim, b);
    hide Covers, OpaqueDot, OpaqueNibble, PictureColumn, PictureRow, SpriteBlits, FirstX, StepX, TileRow, Down;
    hide TilesFit;
  }

  // --------------------------------------------------------------------- one pass

  ghost predicate AllFit(list: seq<Entry>) {
    forall i :: 0 <= i < |list| ==> TilesFit(list[i])
  }

  /** Whether entry i has a dot to show in a cell, as far as the dot limit leaves it. */
  ghost predicate HasDot(mem: seq<Byte>, list: seq<Entry>, h40: bool, line: int, kept: nat, trim: int, i: nat, col: int)
    requires |mem| == VRAM && Shapes(list) && TrimFits(list, kept, trim) && AllFit(list) && i < kept
  {
    TrimOfFits(list, kept, trim, i);
    FitsInVram(list[i], h40, TrimOf(kept, trim, i), mem);
    Covers(mem, SpriteOf(list[i], h40, TrimOf(kept, trim, i)), line, col)
  }

  /** A dot goes to the screen if the pass is for back sprites or the mask `m` at the cell lets entry o through. */
  ghost predicate Lets(front: bool, m: int, o: nat) { front ==> m >= o }

  ghost predicate Draws(mem: seq<Byte>, front: bool, m: int, b: Blit, o: nat, col: int)
    requires |mem| == VRAM
  {
    DrawsDot(mem, b, col) && Lets(front, m, o)
  }

  /** Tile line k draws the last dot in a column. */
  ghost predicate Last(mem: seq<Byte>, front: bool, m: int, blits: seq<Blit>, owners: seq<nat>, col: int, k: nat)
    requires |mem| == VRAM && |blits| == |owners|
  {
    && k < |blits| && Draws(mem, front, m, blits[k], owners[k], col)
    && forall j :: k < j < |blits| ==> !Draws(mem, front, m, blits[j], owners[j], col)
  }

  lemma {:induction false} LastExists(mem: seq<Byte>, front: bool, m: int, blits: seq<Blit>, owners: seq<nat>, col: int,
      k: nat, n: nat) returns (l: nat)
    requires |mem| == VRAM && |blits| == |owners| && k < n <= |blits| && Draws(mem, front, m, blits[k], owners[k], col)
    requires forall j :: n <= j < |blits| ==> !Draws(mem, front, m, blits[j], owners[j], col)
    ensures k <= l && Last(mem, front, m, blits, owners, col, l)
  {
    hide Draws;
    if Draws(mem, front, m, blits[n - 1], owners[n - 1], col) {
      l := n - 1;
    } else {
      l := LastExists(mem, front, m, blits, owners, col, k, n - 1);
    }
  }

  /** Entry o is what a pass leaves on top in a column. */
  ghost predicate OnTop(mem: seq<Byte>, front: bool, m: int, blits: seq<Blit>, owners: seq<nat>, col: int, o: nat)
    requires |mem| == VRAM && |blits| == |owners|
  {
    exists k: nat :: Last(mem, front, m, blits, owners, col, k) && owners[k] == o
  }

  ghost predicate Candidate(mem: seq<Byte>, list: seq<Entry>, h40: bool, line: int, kept: nat, trim: int, front: bool,
      m: int, col: int, i: nat)
    requires |mem| == VRAM && Shapes(list) && TrimFits(list, kept, trim) && AllFit(list)
  {
    i < kept && list[i].front == front && Lets(front, m, i) && HasDot(mem, list, h40, line, kept, trim, i, col)
  }

  ghost predicate FirstCandidate(mem: seq<Byte>, list: seq<Entry>, h40: bool, line: int, kept: nat, trim: int,
      front: bool, m: int, col: int, i: nat)
    requires |mem| == VRAM && Shapes(list) && TrimFits(list, kept, trim) && AllFit(list)
  {
    && Candidate(mem, list, h40, line, kept, trim, front, m, col, i)
    && forall j: nat :: j < i ==> !Candidate(mem, list, h40, line, kept, trim, front, m, col, j)
  }

  lemma BlitsShow(mem: seq<Byte>, list: seq<Entry>, h40: bool, line: int, kept: nat, trim: int, front: bool, col: int,
      i: nat)
    requires |mem| == VRAM && Shapes(list) && TrimFits(list, kept, trim) && AllFit(list) && i < kept && 0 <= col < 320
    ensures (exists b :: b in BlitsOf(list, h40, line, front, kept, trim, i) && DrawsDot(mem, b, col))
       <==> list[i].front == front && HasDot(mem, list, h40, line, kept, trim, i, col)
  {
    TrimOfFits(list, kept, trim, i);
    Picture(mem, list[i], h40, line, TrimOf(kept, trim, i), col);
    hide DrawsDot, Covers, SpriteBlits, SpriteOf, TilesFit, Shapes, TrimFits, TrimOf;
  }

  lemma DrawnIsCandidate(mem: seq<Byte>, list: seq<Entry>, h40: bool, line: int, kept: nat, trim: int, front: bool,
      m: int, col: int, blits: seq<Blit>, owners: seq<nat>, k: nat)
    requires |mem| == VRAM && Shapes(list) && TrimFits(list, kept, trim) && AllFit(list) && 0 <= col < 320
    requires OwnersInTurn(list, h40, line, front, kept, trim, 0, blits, owners)
    requires k < |blits| && Draws(mem, front, m, blits[k], owners[k], col)
    ensures Candidate(mem, list, h40, line, kept, trim, front, m, col, owners[k])
  {
    BlitsShow(mem, list, h40, line, kept, trim, front, col, owners[k]);
    hide BlitsOf, HasDot, DrawsDot, TilesFit, Shapes, TrimFits, AllFit;
  }

  lemma CandidateIsDrawn(mem: seq<Byte>, list: seq<Entry>, h40: bool, line: int, kept: nat, trim: int, front: bool,
      m: int, col: int, blits: seq<Blit>, owners: seq<nat>, i: nat) returns (k: nat)
    requires |mem| == VRAM && Shapes(list) && TrimFits(list, kept, trim) && AllFit(list) && 0 <= col < 320
    requires |blits| == |owners| && AllDrawn(list, h40, line, front, kept, trim, 0, blits, owners)
    requires Candidate(mem, list, h40, line, kept, trim, front, m, col, i)
    ensures k < |blits| && owners[k] == i && Draws(mem, front, m, blits[k], owners[k], col)
  {
    BlitsShow(mem, list, h40, line, kept, trim, front, col, i);
    hide BlitsOf, HasDot, DrawsDot, TilesFit, Shapes, TrimFits, AllFit;
    var b :| b in BlitsOf(list, h40, line, front, kept, trim, i) && DrawsDot(mem, b, col);
    assert IsDrawn(b, i, blits, owners);
    k :| 0 <= k < |blits| && k < |owners| && blits[k] == b && owners[k] == i;
  }

  /** What one pass leaves on top of a column: the first kept entry of its priority that shows a dot there and is let
      through by the mask. */
  lemma PassShowsFirst(mem: seq<Byte>, list: seq<Entry>, h40: bool, line: int, kept: nat, trim: int, front: bool,
      m: int, col: int, blits: seq<Blit>, owners: seq<nat>, o: nat)
    requires |mem| == VRAM && Shapes(list) && TrimFits(list, kept, trim) && AllFit(list) && 0 <= col < 320
    requires OwnersInTurn(list, h40, line, front, kept, trim, 0, blits, owners)
    requires AllDrawn(list, h40, line, front, kept, trim, 0, blits, owners)
    ensures |blits| == |owners|
    ensures OnTop(mem, front, m, blits, owners, col, o)
       <==> FirstCandidate(mem, list, h40, line, kept, trim, front, m, col, o)
  {
    InTurn(list, h40, line, front, kept, trim, blits, owners);
    if OnTop(mem, front, m, blits, owners, col, o) {
      TopIsFirst(mem, list, h40, line, kept, trim, front, m, col, blits, owners, o);
    }
    if FirstCandidate(mem, list, h40, line, kept, trim, front, m, col, o) {
      FirstIsTop(mem, list, h40, line, kept, trim, front, m, col, blits, owners, o);
    }
    hide *;
  }

  lemma InTurn(list: seq<Entry>, h40: bool, line: int, front: bool, kept: nat, trim: int, blits: seq<Blit>,
      owners: seq<nat>)
    requires Shapes(list) && TrimFits(list, kept, trim)
    requires OwnersInTurn(list, h40, line, front, kept, trim, 0, blits, owners)
    ensures |owners| == |blits| && forall j, k :: 0 <= j < k < |owners| ==> owners[k] <= owners[j]
  {
    hide BlitsOf;
  }

  lemma TopIsFirst(mem: seq<Byte>, list: seq<Entry>, h40: bool, line: int, kept: nat, trim: int, front: bool,
      m: int, col: int, blits: seq<Blit>, owners: seq<nat>, o: nat)
    requires |mem| == VRAM && Shapes(list) && TrimFits(list, kept, trim) && AllFit(list) && 0 <= col < 320
    requires OwnersInTurn(list, h40, line, front, kept, trim, 0, blits, owners) && |blits| == |owners|
    requires AllDrawn(list, h40, line, front, kept, trim, 0, blits, owners)
    requires OnTop(mem, front, m, blits, owners, col, o)
    ensures FirstCandidate(mem, list, h40, line, kept, trim, front, m, col, o)
  {
    hide Candidate, Draws, OwnersInTurn, AllDrawn, Shapes, TrimFits, AllFit;
    InTurn(list, h40, line, front, kept, trim, blits, owners);
    var k: nat :| Last(mem, front, m, blits, owners, col, k) && owners[k] == o;
    DrawnIsCandidate(mem, list, h40, line, kept, trim, front, m, col, blits, owners, k);
    forall j: nat | j < o ensures !Candidate(mem, list, h40, line, kept, trim, front, m, col, j) {
      if Candidate(mem, list, h40, line, kept, trim, front, m, col, j) {
        var l := CandidateIsDrawn(mem, list, h40, line, kept, trim, front, m, col, blits, owners, j);
        assert false;
      }
    }
  }

  lemma FirstIsTop(mem: seq<Byte>, list: seq<Entry>, h40: bool, line: int, kept: nat, trim: int, front: bool,
      m: int, col: int, blits: seq<Blit>, owners: seq<nat>, o: nat)
    requires |mem| == VRAM && Shapes(list) && TrimFits(list, kept, trim) && AllFit(list) && 0 <= col < 320
    requires OwnersInTurn(list, h40, line, front, kept, trim, 0, blits, owners) && |blits| == |owners|
    requires AllDrawn(list, h40, line, front, kept, trim, 0, blits, owners)
    requires FirstCandidate(mem, list, h40, line, kept, trim, front, m, col, o)
    ensures OnTop(mem, front, m, blits, owners, col, o)
  {
    hide Candidate, Draws, OwnersInTurn, AllDrawn, Shapes, TrimFits, AllFit;
    InTurn(list, h40, line, front, kept, trim, blits, owners);
    var k := CandidateIsDrawn(mem, list, h40, line, kept, trim, front, m, col, blits, owners, o);
    var l := LastExists(mem, front, m, blits, owners, col, k, |blits|);
    DrawnIsCandidate(mem, list, h40, line, kept, trim, front, m, col, blits, owners, l);
    assert owners[l] <= owners[k];
  }

  // ------------------------------------------------------------------- both passes

  /** The mask cell of a displayed column: the first low-priority sprite of the whole list that shows there. */
  ghost function MaskAt(mem: seq<Byte>, base: nat, order: seq<Byte>, h40: bool, line: int, col: int): int
    requires ListBacked(mem, base, order, h40) && |order| <= UNCOVERED
  {
    FrontSprite(mem, base, order, h40, 0, line + 0x80, col + 0x80)
  }

  /** A sprite that the mask leaves out as hidden has nothing to show on the display. */
  lemma HiddenShowsNothing(mem: seq<Byte>, s: Sprite, row: int, col: int)
    requires s.Backed(mem) && Hidden(s) && 0 <= row < 256 && 0 <= col < 320
    ensures !Covers(mem, s, row, col)
  {
    hide OpaqueDot;
  }

  lemma ShiftedCovers(mem: seq<Byte>, s: Sprite, row: int, col: int)
    requires s.Backed(mem)
    ensures Shifted(s).Backed(mem) && Covers(mem, Shifted(s), row + 0x80, col + 0x80) == Covers(mem, s, row, col)
  {
    hide OpaqueNibble;
  }

  /** The entry and the sprite that the mask is painted from are the same. */
  lemma EntryAsSprite(mem: seq<Byte>, base: nat, index: int, h40: bool)
    requires 0 <= index && base + index * 8 + 8 <= |mem|
    ensures SpriteOf(EntryAt(mem, base, index, false), h40, 0) == SpriteInfo(mem, base + index * 8, h40)
  {
    EntryIsTheSprite(mem, base, index, h40);
    EntryFits(mem, base, index);
    hide EntryAt, SpriteInfo, WordAt, At;
  }

  lemma EntryFits(mem: seq<Byte>, base: nat, index: int)
    requires 0 <= index && base + index * 8 + 8 <= |mem|
    ensures 0 <= EntryAt(mem, base, index, false).which < 0x1_0000
  {
  }

  /** The entries of the frame's sprites in list order. */
  ghost function ListOf(mem: seq<Byte>, base: nat, order: seq<Byte>, h40: bool): (list: seq<Entry>)
    requires ListBacked(mem, base, order, h40)
    ensures |list| == |order| && Shapes(list)
  {
    assert forall i: nat :: i < |order| ==> At(order, i) == order[i];
    EntriesOf(mem, base, order, false)
  }

  lemma EntryInList(mem: seq<Byte>, base: nat, order: seq<Byte>, h40: bool, i: nat)
    requires ListBacked(mem, base, order, h40) && i < |order|
    ensures base + At(order, i) * 8 + 8 <= |mem|
    ensures ListOf(mem, base, order, h40)[i] == EntryAt(mem, base, At(order, i), false)
  {
    assert At(order, i) == order[i];
  }

  lemma Whole(list: seq<Entry>, h40: bool, kept: nat, trim: int, i: nat)
    requires Shapes(list) && TrimFits(list, kept, trim) && i < kept && TrimOf(kept, trim, i) == 0
    ensures list[i].Shape() && -list[i].w < 0
    ensures SpriteOf(list[i], h40, TrimOf(kept, trim, i)) == SpriteOf(list[i], h40, 0)
  {
    TrimOfFits(list, kept, trim, i);
  }

  /** What the mask says of an entry that the dot limit leaves whole. */
  lemma ShowsIs(mem: seq<Byte>, base: nat, order: seq<Byte>, h40: bool, line: int, col: int, kept: nat, trim: int,
      i: nat)
    requires |mem| == VRAM && ListBacked(mem, base, order, h40) && i < |order| && 0 <= line < 256 && 0 <= col < 320
    requires var list := ListOf(mem, base, order, h40);
             AllFit(list) && TrimFits(list, kept, trim) && i < kept && TrimOf(kept, trim, i) == 0
    ensures var list := ListOf(mem, base, order, h40);
            Shows(mem, base, order, h40, i, line + 0x80, col + 0x80)
            <==> !list[i].front && HasDot(mem, list, h40, line, kept, trim, i, col)
  {
    var list := ListOf(mem, base, order, h40);
    EntryInList(mem, base, order, h40, i);
    EntryAsSprite(mem, base, At(order, i), h40);
    var s := SpriteAt(mem, base, order, h40, i);
    Whole(list, h40, kept, trim, i);
    FitsInVram(list[i], h40, 0, mem);
    ShiftedCovers(mem, s, line, col);
    if Hidden(s) { HiddenShowsNothing(mem, s, line, col); }
    hide EntryAt, SpriteInfo, Covers, Hidden, TilesFit, TrimFits, TrimOf, Shifted, ListOf, ListBacked, Shapes;
  }

  /** What the two passes leave on top: what the front pass drew last, and where it drew nothing, what the back pass
      drew last. */
  ghost predicate Seen(mem: seq<Byte>, m: int, back: seq<Blit>, backOwners: seq<nat>, front: seq<Blit>,
      frontOwners: seq<nat>, col: int, o: nat)
    requires |mem| == VRAM && |back| == |backOwners| && |front| == |frontOwners|
  {
    || OnTop(mem, true, m, front, frontOwners, col, o)
    || (OnTop(mem, false, m, back, backOwners, col, o)
        && forall p: nat :: !OnTop(mem, true, m, front, frontOwners, col, p))
  }

  /** The plain rule: the first entry of the list, of either priority, that is kept and has a dot there. */
  ghost predicate FirstInList(mem: seq<Byte>, list: seq<Entry>, h40: bool, line: int, kept: nat, trim: int, col: int,
      o: nat)
    requires |mem| == VRAM && Shapes(list) && TrimFits(list, kept, trim) && AllFit(list)
  {
    && o < kept && HasDot(mem, list, h40, line, kept, trim, o, col)
    && forall j: nat :: j < o ==> !HasDot(mem, list, h40, line, kept, trim, j, col)
  }

  /** What the mask has to say about the kept entries before the last one. */
  ghost predicate MaskAgrees(mem: seq<Byte>, list: seq<Entry>, h40: bool, line: int, kept: nat, trim: int, m: int,
      col: int)
    requires |mem| == VRAM && Shapes(list) && TrimFits(list, kept, trim) && AllFit(list)
  {
    && 0 <= m
    && (m + 1 < kept ==> !list[m].front && HasDot(mem, list, h40, line, kept, trim, m, col))
    && forall j: nat :: j + 1 < kept && !list[j].front && HasDot(mem, list, h40, line, kept, trim, j, col) ==> m <= j
  }

  /** The mask is made of the whole list, while the passes draw the kept part of it, and the last of that shortened. In
      the kept entries before the last one that makes no difference. */
  lemma MaskIsEnough(mem: seq<Byte>, base: nat, order: seq<Byte>, h40: bool, line: int, col: int, kept: nat, trim: int)
    requires |mem| == VRAM && |order| <= UNCOVERED && ListBacked(mem, base, order, h40)
    requires 0 <= line < 256 && 0 <= col < 320
    requires AllFit(ListOf(mem, base, order, h40)) && TrimFits(ListOf(mem, base, order, h40), kept, trim)
    ensures MaskAgrees(mem, ListOf(mem, base, order, h40), h40, line, kept, trim,
                       MaskAt(mem, base, order, h40, line, col), col)
  {
    var list, m := ListOf(mem, base, order, h40), MaskAt(mem, base, order, h40, line, col);
    hide HasDot, Shows, ListBacked, AllFit, TrimFits, MaskAt, ListOf, TrimOf, Shapes;
    MaskIsSmallest(mem, base, order, h40, line, col);
    KeptOf(list, kept, trim);
    if m + 1 < kept { ShowsKept(mem, base, order, h40, line, col, kept, trim, m); }
    forall j: nat | j + 1 < kept && !list[j].front && HasDot(mem, list, h40, line, kept, trim, j, col)
      ensures m <= j
    {
      ShowsKept(mem, base, order, h40, line, col, kept, trim, j);
    }
  }

  lemma MaskIsSmallest(mem: seq<Byte>, base: nat, order: seq<Byte>, h40: bool, line: int, col: int)
    requires ListBacked(mem, base, order, h40) && |order| <= UNCOVERED
    ensures var m, row, cell := MaskAt(mem, base, order, h40, line, col), line + 0x80, col + 0x80;
            && m >= 0 && (m < |order| ==> Shows(mem, base, order, h40, m, row, cell))
            && forall j: nat :: j < |order| && Shows(mem, base, order, h40, j, row, cell) ==> m <= j
  {
    FrontSpriteIsSmallest(mem, base, order, h40, 0, line + 0x80, col + 0x80);
    hide Shows, ListBacked;
  }

  lemma ShowsKept(mem: seq<Byte>, base: nat, order: seq<Byte>, h40: bool, line: int, col: int, kept: nat, trim: int,
      i: nat)
    requires |mem| == VRAM && ListBacked(mem, base, order, h40) && i < |order| && 0 <= line < 256 && 0 <= col < 320
    requires AllFit(ListOf(mem, base, order, h40)) && TrimFits(ListOf(mem, base, order, h40), kept, trim)
    requires i + 1 < kept
    ensures Shows(mem, base, order, h40, i, line + 0x80, col + 0x80)
       <==> var list := ListOf(mem, base, order, h40);
            !list[i].front && HasDot(mem, list, h40, line, kept, trim, i, col)
  {
    hide *;
    BeforeLast(kept, trim, i);
    ShowsIs(mem, base, order, h40, line, col, kept, trim, i);
  }

  lemma KeptOf(list: seq<Entry>, kept: nat, trim: int)
    requires TrimFits(list, kept, trim)
    ensures kept <= |list|
  {
  }

  lemma BeforeLast(kept: nat, trim: int, i: int)
    requires i + 1 < kept
    ensures TrimOf(kept, trim, i) == 0
  {
  }

  lemma {:induction false} FirstOf(mem: seq<Byte>, list: seq<Entry>, h40: bool, line: int, kept: nat, trim: int,
      m: int, col: int, i: nat, n: nat) returns (o: nat)
    requires |mem| == VRAM && Shapes(list) && TrimFits(list, kept, trim) && AllFit(list) && n <= i
    requires Candidate(mem, list, h40, line, kept, trim, true, m, col, i)
    requires forall j: nat :: j < n ==> !Candidate(mem, list, h40, line, kept, trim, true, m, col, j)
    ensures o <= i && FirstCandidate(mem, list, h40, line, kept, trim, true, m, col, o)
    decreases i - n
  {
    hide Candidate, Shapes, TrimFits, AllFit;
    if Candidate(mem, list, h40, line, kept, trim, true, m, col, n) {
      o := n;
    } else {
      o := FirstOf(mem, list, h40, line, kept, trim, m, col, i, n + 1);
    }
  }

  lemma FrontIsFirst(mem: seq<Byte>, list: seq<Entry>, h40: bool, line: int, kept: nat, trim: int, m: int, col: int,
      o: nat)
    requires |mem| == VRAM && Shapes(list) && TrimFits(list, kept, trim) && AllFit(list)
    requires MaskAgrees(mem, list, h40, line, kept, trim, m, col)
    requires FirstCandidate(mem, list, h40, line, kept, trim, true, m, col, o)
    ensures FirstInList(mem, list, h40, line, kept, trim, col, o)
  {
    hide HasDot, Shapes, TrimFits, AllFit;
    forall j: nat | j < o ensures !HasDot(mem, list, h40, line, kept, trim, j, col) {
      assert !Candidate(mem, list, h40, line, kept, trim, true, m, col, j);
    }
  }

  lemma MaskIsCandidate(mem: seq<Byte>, list: seq<Entry>, h40: bool, line: int, kept: nat, trim: int, m: int, col: int)
    requires |mem| == VRAM && Shapes(list) && TrimFits(list, kept, trim) && AllFit(list)
    requires MaskAgrees(mem, list, h40, line, kept, trim, m, col)
    ensures m >= 0 && (m + 1 < kept ==> Candidate(mem, list, h40, line, kept, trim, false, m, col, m))
  {
    hide HasDot, Shapes, TrimFits, AllFit;
  }

  lemma MaskNotBefore(mem: seq<Byte>, list: seq<Entry>, h40: bool, line: int, kept: nat, trim: int, m: int, col: int,
      o: nat)
    requires |mem| == VRAM && Shapes(list) && TrimFits(list, kept, trim) && AllFit(list)
    requires MaskAgrees(mem, list, h40, line, kept, trim, m, col)
    requires FirstCandidate(mem, list, h40, line, kept, trim, false, m, col, o)
    ensures o <= m
  {
    MaskIsCandidate(mem, list, h40, line, kept, trim, m, col);
    FirstIsCandidate(mem, list, h40, line, kept, trim, false, m, col, o);
    hide Candidate, MaskAgrees, Shapes, TrimFits, AllFit;
  }

  lemma FirstIsCandidate(mem: seq<Byte>, list: seq<Entry>, h40: bool, line: int, kept: nat, trim: int, front: bool,
      m: int, col: int, o: nat)
    requires |mem| == VRAM && Shapes(list) && TrimFits(list, kept, trim) && AllFit(list)
    requires FirstCandidate(mem, list, h40, line, kept, trim, front, m, col, o)
    ensures o < kept && Candidate(mem, list, h40, line, kept, trim, front, m, col, o)
  {
    hide HasDot, Shapes, TrimFits, AllFit;
  }

  lemma BackIsFirst(mem: seq<Byte>, list: seq<Entry>, h40: bool, line: int, kept: nat, trim: int, m: int, col: int,
      o: nat)
    requires |mem| == VRAM && Shapes(list) && TrimFits(list, kept, trim) && AllFit(list)
    requires MaskAgrees(mem, list, h40, line, kept, trim, m, col)
    requires FirstCandidate(mem, list, h40, line, kept, trim, false, m, col, o)
    requires forall p: nat :: !FirstCandidate(mem, list, h40, line, kept, trim, true, m, col, p)
    ensures FirstInList(mem, list, h40, line, kept, trim, col, o)
  {
    hide HasDot, Shapes, TrimFits, AllFit;
    forall j: nat | j < o ensures !HasDot(mem, list, h40, line, kept, trim, j, col) {
      assert !Candidate(mem, list, h40, line, kept, trim, false, m, col, j);
      MaskNotBefore(mem, list, h40, line, kept, trim, m, col, o);
      NoFront(mem, list, h40, line, kept, trim, m, col, j);
    }
  }

  lemma NoFront(mem: seq<Byte>, list: seq<Entry>, h40: bool, line: int, kept: nat, trim: int, m: int, col: int, j: nat)
    requires |mem| == VRAM && Shapes(list) && TrimFits(list, kept, trim) && AllFit(list)
    requires forall p: nat :: !FirstCandidate(mem, list, h40, line, kept, trim, true, m, col, p)
    ensures !Candidate(mem, list, h40, line, kept, trim, true, m, col, j)
  {
    hide Candidate, Shapes, TrimFits, AllFit;
    if Candidate(mem, list, h40, line, kept, trim, true, m, col, j) {
      var first := FirstOf(mem, list, h40, line, kept, trim, m, col, j, 0);
      assert false;
    }
  }

  lemma FirstIsShown(mem: seq<Byte>, list: seq<Entry>, h40: bool, line: int, kept: nat, trim: int, m: int, col: int,
      o: nat)
    requires |mem| == VRAM && Shapes(list) && TrimFits(list, kept, trim) && AllFit(list)
    requires MaskAgrees(mem, list, h40, line, kept, trim, m, col)
    requires FirstInList(mem, list, h40, line, kept, trim, col, o) && o < |list|
    ensures FirstCandidate(mem, list, h40, line, kept, trim, list[o].front, m, col, o)
    ensures !list[o].front ==> forall p: nat :: !FirstCandidate(mem, list, h40, line, kept, trim, true, m, col, p)
  {
    hide HasDot, Shapes, TrimFits, AllFit;
    KeptOf(list, kept, trim);
  }

  /** The two priorities merged: the mask holds back exactly the front dots that an earlier back sprite covers. */
  lemma Merge(mem: seq<Byte>, list: seq<Entry>, h40: bool, line: int, kept: nat, trim: int, m: int, col: int,
      o: nat)
    requires |mem| == VRAM && Shapes(list) && TrimFits(list, kept, trim) && AllFit(list)
    requires MaskAgrees(mem, list, h40, line, kept, trim, m, col)
    ensures FirstInList(mem, list, h40, line, kept, trim, col, o)
       <==> FirstCandidate(mem, list, h40, line, kept, trim, true, m, col, o)
            || (FirstCandidate(mem, list, h40, line, kept, trim, false, m, col, o)
                && forall p: nat :: !FirstCandidate(mem, list, h40, line, kept, trim, true, m, col, p))
  {
    hide *;
    if FirstInList(mem, list, h40, line, kept, trim, col, o) {
      FirstIsKept(mem, list, h40, line, kept, trim, col, o);
      FirstIsShown(mem, list, h40, line, kept, trim, m, col, o);
    }
    if FirstCandidate(mem, list, h40, line, kept, trim, true, m, col, o) {
      FrontIsFirst(mem, list, h40, line, kept, trim, m, col, o);
    }
    if FirstCandidate(mem, list, h40, line, kept, trim, false, m, col, o)
       && forall p: nat :: !FirstCandidate(mem, list, h40, line, kept, trim, true, m, col, p)
    {
      BackIsFirst(mem, list, h40, line, kept, trim, m, col, o);
    }
  }

  lemma FirstIsKept(mem: seq<Byte>, list: seq<Entry>, h40: bool, line: int, kept: nat, trim: int, col: int, o: nat)
    requires |mem| == VRAM && Shapes(list) && TrimFits(list, kept, trim) && AllFit(list)
    requires FirstInList(mem, list, h40, line, kept, trim, col, o)
    ensures o < |list|
  {
    KeptOf(list, kept, trim);
  }

  /** The main result. The back pass draws without looking and the front pass through the mask; together they show in
      every column of every displayed line the first kept sprite of the list that has a dot there, whatever the
      priorities are, and no sprite exactly where no kept one has a dot. */
  lemma PassesFollowTheList(mem: seq<Byte>, base: nat, order: seq<Byte>, h40: bool, line: int, col: int, kept: nat,
      trim: int, back: seq<Blit>, backOwners: seq<nat>, front: seq<Blit>, frontOwners: seq<nat>, o: nat)
    requires |mem| == VRAM && |order| <= UNCOVERED && ListBacked(mem, base, order, h40)
    requires 0 <= line < 256 && 0 <= col < 320
    requires AllFit(ListOf(mem, base, order, h40)) && TrimFits(ListOf(mem, base, order, h40), kept, trim)
    requires OwnersInTurn(ListOf(mem, base, order, h40), h40, line, false, kept, trim, 0, back, backOwners)
    requires AllDrawn(ListOf(mem, base, order, h40), h40, line, false, kept, trim, 0, back, backOwners)
    requires OwnersInTurn(ListOf(mem, base, order, h40), h40, line, true, kept, trim, 0, front, frontOwners)
    requires AllDrawn(ListOf(mem, base, order, h40), h40, line, true, kept, trim, 0, front, frontOwners)
    ensures |back| == |backOwners| && |front| == |frontOwners|
    ensures Seen(mem, MaskAt(mem, base, order, h40, line, col), back, backOwners, front, frontOwners, col, o)
       <==> FirstInList(mem, ListOf(mem, base, order, h40), h40, line, kept, trim, col, o)
  {
    var list, m := ListOf(mem, base, order, h40), MaskAt(mem, base, order, h40, line, col);
    hide HasDot, Shapes, TrimFits, AllFit, OnTop, FirstCandidate, FirstInList, MaskAgrees, OwnersInTurn, AllDrawn;
    hide ListOf, ListBacked, MaskAt;
    MaskIsEnough(mem, base, order, h40, line, col, kept, trim);
    Merge(mem, list, h40, line, kept, trim, m, col, o);
    PassShowsFirst(mem, list, h40, line, kept, trim, false, m, col, back, backOwners, o);
    PassShowsFirst(mem, list, h40, line, kept, trim, true, m, col, front, frontOwners, o);
    forall p: nat
      ensures OnTop(mem, true, m, front, frontOwners, col, p)
           == FirstCandidate(mem, list, h40, line, kept, trim, true, m, col, p)
    {
      PassShowsFirst(mem, list, h40, line, kept, trim, true, m, col, front, frontOwners, p);
    }
  }
}
