/** What a program gets from the tables it writes (ras.cpp, draw_scanline): from a word in CRAM to the channels of a
    pixel, and from the links of a sprite table to the order of the sprites. */
module VdpTables {
  import opened MachineWords
  import opened VdpMemory
  import opened VdpCaches
  import VdpDma
  import VdpMask

  /** The word of a colour: three bits a channel, blue on top. */
  function Colour(r: int, g: int, b: int): Word
    requires 0 <= r < 8 && 0 <= g < 8 && 0 <= b < 8
  {
    b * 0x200 + g * 0x20 + r * 2
  }

  lemma ColourFields(r: int, g: int, b: int)
    requires 0 <= r < 8 && 0 <= g < 8 && 0 <= b < 8
    ensures var d := Colour(r, g, b); Red(d % 0x100) == r && Green(d % 0x100) == g && Blue(d / 0x100) == b
  {
    var d := Colour(r, g, b);
    assert d / 0x100 == 2 * b && d % 0x100 == g * 0x20 + r * 2;
  }

  /** Where the three channels of three bits are in a pixel, and that nothing else is there. */
  predicate Channels(p: int, r: int, g: int, b: int, bpp: int)
    requires 0 <= r < 8 && 0 <= g < 8 && 0 <= b < 8
  {
    if bpp == 15 then p / 0x400 == 4 * r && p / 0x20 % 0x20 == 4 * g && p % 0x20 == 4 * b
    else if bpp == 16 then p / 0x800 == 4 * r && p / 0x20 % 0x40 == 8 * g && p % 0x20 == 4 * b
    else if bpp == 24 then p / 0x1_0000 == 0x20 * g && p / 0x100 % 0x100 == 0x20 * b && p % 0x100 == 0x20 * r
    else p / 0x1_0000 == Scale(r) && p / 0x100 % 0x100 == Scale(g) && p % 0x100 == Scale(b)
  }

  /** At 32 bits a channel rises from 0 to 0xff in nearly equal steps. */
  lemma LevelsRise(c: int)
    requires 0 <= c < 8
    ensures Scale(c) == 0 <==> c == 0
    ensures Scale(c) == 0xff <==> c == 7
    ensures c < 7 ==> 27 <= Scale(c + 1) - Scale(c) <= 49
  {
  }

  lemma PixelChannels(r: int, g: int, b: int, bpp: int)
    requires 0 <= r < 8 && 0 <= g < 8 && 0 <= b < 8 && Deep(bpp)
    ensures Channels(Pixel(r, g, b, bpp), r, g, b, bpp)
  {
    if bpp == 15 || bpp == 16 {
      ShallowChannels(r, g, b, bpp);
    } else {
      DeepChannels(r, g, b, bpp);
    }
    hide Channels, Pixel;
  }

  lemma ShallowChannels(r: int, g: int, b: int, bpp: int)
    requires 0 <= r < 8 && 0 <= g < 8 && 0 <= b < 8 && (bpp == 15 || bpp == 16)
    ensures Channels(Pixel(r, g, b, bpp), r, g, b, bpp)
  {
    Low(r, g, b);
    High(r, g, b);
    hide Scale;
  }

  lemma DeepChannels(r: int, g: int, b: int, bpp: int)
    requires 0 <= r < 8 && 0 <= g < 8 && 0 <= b < 8 && (bpp == 24 || bpp == 32)
    ensures Channels(Pixel(r, g, b, bpp), r, g, b, bpp)
  {
    if bpp == 24 {
      PackedChannels(r, g, b);
    } else {
      ScaledChannels(r, g, b);
    }
    hide *;
  }

  lemma PackedChannels(r: int, g: int, b: int)
    requires 0 <= r < 8 && 0 <= g < 8 && 0 <= b < 8
    ensures Channels(Pixel(r, g, b, 24), r, g, b, 24)
  {
    Three(0x20 * r, 0x20 * b, 0x20 * g);
  }

  lemma ScaledChannels(r: int, g: int, b: int)
    requires 0 <= r < 8 && 0 <= g < 8 && 0 <= b < 8
    ensures Channels(Pixel(r, g, b, 32), r, g, b, 32)
  {
    Three(Scale(b), Scale(g), Scale(r));
    hide Scale;
  }

  lemma Low(r: int, g: int, b: int)
    requires 0 <= r < 8 && 0 <= g < 8 && 0 <= b < 8
    ensures var p := r * 0x1000 + g * 0x80 + b * 4;
            p / 0x400 == 4 * r && p / 0x20 % 0x20 == 4 * g && p % 0x20 == 4 * b
  {
    var p := r * 0x1000 + g * 0x80 + b * 4;
    Remainder(p, 4 * g + 0x80 * r, 0x20, 4 * b);
    Remainder(4 * g + 0x80 * r, 4 * r, 0x20, 4 * g);
    Remainder(p, 4 * r, 0x400, 4 * b + 0x80 * g);
  }

  lemma High(r: int, g: int, b: int)
    requires 0 <= r < 8 && 0 <= g < 8 && 0 <= b < 8
    ensures var p := r * 0x2000 + g * 0x100 + b * 4;
            p / 0x800 == 4 * r && p / 0x20 % 0x40 == 8 * g && p % 0x20 == 4 * b
  {
    var p := r * 0x2000 + g * 0x100 + b * 4;
    Remainder(p, 8 * g + 0x100 * r, 0x20, 4 * b);
    Remainder(8 * g + 0x100 * r, 4 * r, 0x40, 8 * g);
    Remainder(p, 4 * r, 0x800, 4 * b + 0x100 * g);
  }

  lemma Three(x: int, y: int, z: int)
    requires 0 <= x < 0x100 && 0 <= y < 0x100 && 0 <= z < 0x100
    ensures var p := x + y * 0x100 + z * 0x1_0000; p / 0x1_0000 == z && p / 0x100 % 0x100 == y && p % 0x100 == x
  {
    var p := x + y * 0x100 + z * 0x1_0000;
    Remainder(p, y + z * 0x100, 0x100, x);
    Remainder(y + z * 0x100, z, 0x100, y);
    Remainder(p, z, 0x1_0000, x + y * 0x100);
  }

  lemma CramHolds(v: Vdp, i: int, d: Word, bus: Bus)
    requires v.Valid() && !v.pending && 0 <= i < 64
    ensures var cram := Sent(Aim(v, CRAM_WRITE, 2 * i, bus), d).cram;
            |cram| == CRAM_SIZE && cram[2 * i] == d / 0x100 && cram[2 * i + 1] == d % 0x100
  {
    hide *;
    CramCode(v);
    SentTo(v, CRAM_WRITE, 2 * i, d, bus);
    EvenPlace(v.cram, i, d / 0x100, d % 0x100);
  }

  lemma CramCode(v: Vdp)
    requires v.Valid()
    ensures 0 <= CRAM_WRITE < 0x20 && |v.cram| == CRAM_SIZE
  {
  }

  lemma EvenPlace(s: seq<Byte>, i: int, x: Byte, y: Byte)
    requires |s| == CRAM_SIZE && 0 <= i < 64
    ensures var t := s[2 * i % CRAM_SIZE := x][(2 * i + 1) % CRAM_SIZE := y];
            |t| == CRAM_SIZE && t[2 * i] == x && t[2 * i + 1] == y
  {
    InCram(i);
    TwoPlaces(s, 2 * i, 2 * i + 1, x, y);
  }

  lemma InCram(i: int)
    requires 0 <= i < 64
    ensures 2 * i % CRAM_SIZE == 2 * i && (2 * i + 1) % CRAM_SIZE == 2 * i + 1
  {
  }

  lemma EntryOf(cram: seq<Byte>, i: int, r: int, g: int, b: int, bpp: int)
    requires |cram| == CRAM_SIZE && 0 <= i < 64 && 0 <= r < 8 && 0 <= g < 8 && 0 <= b < 8 && Deep(bpp)
    requires cram[2 * i] == Colour(r, g, b) / 0x100 && cram[2 * i + 1] == Colour(r, g, b) % 0x100
    ensures Decode(cram, bpp)[i] == Pixel(r, g, b, bpp)
  {
    ColourFields(r, g, b);
    hide Red, Green, Blue, Pixel, Colour;
  }

  /** A colour written through the ports shows up in the palette with each channel in its place. At 24 bits the channels
      are in another order than at the other depths. */
  lemma ColourArrives(v: Vdp, i: int, r: int, g: int, b: int, bpp: int, bus: Bus)
    requires v.Valid() && !v.pending && 0 <= i < 64 && 0 <= r < 8 && 0 <= g < 8 && 0 <= b < 8 && Deep(bpp)
    ensures var w := Sent(Aim(v, CRAM_WRITE, 2 * i, bus), b * 0x200 + g * 0x20 + r * 2);
            Channels(Decode(w.cram, bpp)[i], r, g, b, bpp)
  {
    hide *;
    CramCode(v);
    ColourIs(r, g, b);
    CramHolds(v, i, Colour(r, g, b), bus);
    PixelChannels(r, g, b, bpp);
    EntryOf(Sent(Aim(v, CRAM_WRITE, 2 * i, bus), Colour(r, g, b)).cram, i, r, g, b, bpp);
  }

  lemma ColourIs(r: int, g: int, b: int)
    requires 0 <= r < 8 && 0 <= g < 8 && 0 <= b < 8
    ensures Colour(r, g, b) == b * 0x200 + g * 0x20 + r * 2
  {
  }

  // ----------------------------------------------------------------------- sprite list

  /** Whatever the links are, a list follows at most `room` of them, and that many if no link is zero. */
  lemma {:induction false} LinksCounted(mem: seq<Byte>, reg5: Byte, sprite: int, room: nat)
    requires sprite >= 0
    ensures |Links(mem, reg5, sprite, room)| <= room
    ensures (forall s :: 0 <= s < 0x100 ==> LinkAt(mem, reg5, s) != 0) && sprite < 0x100 ==>
              |Links(mem, reg5, sprite, room)| == room
    decreases room
  {
    hide LinkAt;
    if room > 0 && LinkAt(mem, reg5, sprite) != 0 {
      LinksCounted(mem, reg5, LinkAt(mem, reg5, sprite), room - 1);
    }
  }

  /** The longest sprite list of a frame has sprite 0 and 80 links in the wide mode, sprite 0 and 64 links in the narrow
      one; a table without a link 0 gives it. */
  lemma LongestList(mem: seq<Byte>, reg5: Byte, reg12: Byte)
    ensures var n := |OrderOf(mem, reg5, Limit(reg12))|;
            && n <= (if reg12 % 2 == 1 then 81 else 65)
            && ((forall s :: 0 <= s < 0x100 ==> LinkAt(mem, reg5, s) != 0) ==>
                 n == if reg12 % 2 == 1 then 81 else 65)
  {
    LinksCounted(mem, reg5, 0, Limit(reg12));
    hide Links, LinkAt;
  }

  /** A table at `base` in which each sprite up to n links to the next one and the last one to sprite 0. */
  ghost predicate LinkedInARow(mem: seq<Byte>, base: nat, n: nat) {
    base + n * 8 + 4 <= |mem| && forall i :: 0 <= i <= n ==> mem[base + i * 8 + 3] == if i < n then i + 1 else 0
  }

  function UpTo(i: nat, n: nat): seq<int>
    decreases n - i
  {
    if i >= n then [0] else [i + 1] + UpTo(i + 1, n)
  }

  lemma RowLink(mem: seq<Byte>, reg5: Byte, i: nat, n: nat)
    requires i <= n < 0x100 && LinkedInARow(mem, (reg5 as int) * 0x200, n)
    ensures LinkAt(mem, reg5, i) == if i < n then i + 1 else 0
  {
  }

  lemma {:induction false} RowLinks(mem: seq<Byte>, reg5: Byte, i: nat, n: nat, room: nat)
    requires i <= n < 0x100 && LinkedInARow(mem, (reg5 as int) * 0x200, n) && n - i < room
    ensures Links(mem, reg5, i, room) == UpTo(i, n)
    decreases room
  {
    hide *;
    RowLink(mem, reg5, i, n);
    UpToNext(i, n);
    if i < n {
      FirstLink(mem, reg5, i, room);
      RowLinks(mem, reg5, i + 1, n, room - 1);
    } else {
      LastLink(mem, reg5, i, room);
    }
  }

  lemma UpToNext(i: nat, n: nat)
    ensures UpTo(i, n) == if i >= n then [0] else [i + 1] + UpTo(i + 1, n)
  {
  }

  /** Where the table is: a program that writes x to register 5 and then has sprites 0 to n in VRAM at x * 0x200
      each linked to the next gets the order 0, 1, ..., n, closed by the link 0 that ends it. */
  lemma SpritesInARow(v: Vdp, x: Byte, n: nat, bus: Bus)
    requires v.Valid() && !v.pending && n < 64 && LinkedInARow(v.vram, (x as int) * 0x200, n)
    ensures var w := Run(v, [Control(0x8500 + x, bus)]);
            && VdpMask.Base(w) == (x as int) * 0x200
            && OrderOf(Memory(w), w.reg[5], Limit(w.reg[12])) == [0] + UpTo(0, n)
  {
    hide *;
    var w := Run(v, [Control(0x8500 + x, bus)]);
    TableMoved(v, x, bus);
    InMemory(w, (x as int) * 0x200, n);
    OrderStarts(Memory(w), x, w.reg[12]);
    RowLinks(Memory(w), x, 0, n, Limit(w.reg[12]));
  }

  lemma TableMoved(v: Vdp, x: Byte, bus: Bus)
    requires v.Valid() && !v.pending
    ensures var w := Run(v, [Control(0x8500 + x, bus)]);
            && w.Valid() && w.vram == v.vram && |w.reg| > 12 && w.reg[5] == x && VdpMask.Base(w) == (x as int) * 0x200
  {
    var w := Run(v, [Control(0x8500 + x, bus)]);
    assert VdpDma.RegisterWord(5, x) == 0x8500 + x;
    VdpDma.RunOne(v, Control(0x8500 + x, bus));
    VdpDma.RegisterSet(v, 5, x, bus);
    hide Run, Do, VdpDma.RegisterWord;
  }

  lemma OrderStarts(mem: seq<Byte>, reg5: Byte, reg12: Byte)
    ensures OrderOf(mem, reg5, Limit(reg12)) == [0] + Links(mem, reg5, 0, Limit(reg12)) && Limit(reg12) >= 64
  {
    hide Links;
  }

  lemma InMemory(w: Vdp, base: nat, n: nat)
    requires w.Valid() && LinkedInARow(w.vram, base, n)
    ensures LinkedInARow(Memory(w), base, n)
  {
  }

  lemma {:induction false} UpToIs(i: nat, n: nat)
    requires i <= n
    ensures |UpTo(i, n)| == n - i + 1
    ensures forall k :: 0 <= k <= n - i ==> UpTo(i, n)[k] == if k < n - i then i + 1 + k else 0
    decreases n - i
  {
    if i < n { UpToIs(i + 1, n); }
  }
}
