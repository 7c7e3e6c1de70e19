/** What the renderer derives from video memory and keeps (ras.cpp, draw_scanline): the palette at the depth of the
    screen and the order of the sprites. The dirty bits of VdpMemory decide when they are rebuilt. */
module VdpCaches {
  import opened MachineWords
  import opened VdpMemory

  // ---------------------------------------------------------------------------- palette

  const SCALE: seq<int> := [0, 49, 87, 119, 146, 174, 206, 255]

  function Red(lo: Byte): (c: int)
    ensures 0 <= c < 8
  {
    var l: int := lo;
    l / 2 % 8
  }

  function Green(lo: Byte): (c: int)
    ensures 0 <= c < 8
  {
    var l: int := lo;
    l / 0x20
  }

  function Blue(hi: Byte): (c: int)
    ensures 0 <= c < 8
  {
    var h: int := hi;
    h / 2 % 8
  }

  predicate Deep(bpp: int) { bpp == 15 || bpp == 16 || bpp == 24 || bpp == 32 }

  function Scale(c: int): (s: int)
    requires 0 <= c < 8
    ensures 0 <= s < 0x100
  {
    SCALE[c]
  }

  /** The pixel value of three channels of three bits, on a little-endian host. */
  function Pixel(r: int, g: int, b: int, bpp: int): int
    requires 0 <= r < 8 && 0 <= g < 8 && 0 <= b < 8 && Deep(bpp)
  {
    if bpp == 24 then r * 0x20 + g * 0x20_0000 + b * 0x2000
    else if bpp == 32 then Scale(b) + Scale(g) * 0x100 + Scale(r) * 0x1_0000
    else if bpp == 16 then r * 0x2000 + g * 0x100 + b * 4
    else r * 0x1000 + g * 0x80 + b * 4
  }

  function Entry(cram: seq<Byte>, i: int, bpp: int): int
    requires |cram| == CRAM_SIZE && 0 <= i < 64
  {
    if Deep(bpp) then Pixel(Red(cram[2 * i + 1]), Green(cram[2 * i + 1]), Blue(cram[2 * i]), bpp) else i
  }

  function Decode(cram: seq<Byte>, bpp: int): (p: seq<int>)
    requires |cram| == CRAM_SIZE
    ensures |p| == 64
  {
    seq(64, i requires 0 <= i < 64 => Entry(cram, i, bpp))
  }

  /** Three digits in a base are their own. */
  lemma Digits(x: int, y: int, z: int, x': int, y': int, z': int, base: int)
    requires 0 <= x < base && 0 <= y < base && 0 <= x' < base && 0 <= y' < base
    ensures x + base * (y + base * z) == x' + base * (y' + base * z') <==> x == x' && y == y' && z == z'
  {
    if x + base * (y + base * z) == x' + base * (y' + base * z') {
      Remainder(x + base * (y + base * z), y + base * z, base, x);
      Remainder(x + base * (y + base * z), y' + base * z', base, x');
      Remainder(y + base * z, z, base, y);
      Remainder(y + base * z, z', base, y');
    }
  }

  /** At every depth but the paletted one, different colours stay different, and a pixel fits its depth. */
  lemma PixelIsInjective(r: int, g: int, b: int, r': int, g': int, b': int, bpp: int)
    requires 0 <= r < 8 && 0 <= g < 8 && 0 <= b < 8 && 0 <= r' < 8 && 0 <= g' < 8 && 0 <= b' < 8 && Deep(bpp)
    ensures Pixel(r, g, b, bpp) == Pixel(r', g', b', bpp) <==> r == r' && g == g' && b == b'
    ensures 0 <= Pixel(r, g, b, bpp) < if bpp == 15 then 0x8000 else if bpp == 16 then 0x1_0000 else 0x100_0000
  {
    if bpp == 15 {
      Pixel15(r, g, b, r', g', b');
    } else if bpp == 16 {
      Pixel16(r, g, b, r', g', b');
    } else if bpp == 24 {
      Pixel24(r, g, b, r', g', b');
    } else {
      ScaledPixel(r, g, b, r', g', b');
    }
    hide Pixel;
  }

  lemma Pixel15(r: int, g: int, b: int, r': int, g': int, b': int)
    requires 0 <= r < 8 && 0 <= g < 8 && 0 <= b < 8 && 0 <= r' < 8 && 0 <= g' < 8 && 0 <= b' < 8
    ensures Pixel(r, g, b, 15) == Pixel(r', g', b', 15) <==> r == r' && g == g' && b == b'
    ensures 0 <= Pixel(r, g, b, 15) < 0x8000
  {
  }

  lemma Pixel16(r: int, g: int, b: int, r': int, g': int, b': int)
    requires 0 <= r < 8 && 0 <= g < 8 && 0 <= b < 8 && 0 <= r' < 8 && 0 <= g' < 8 && 0 <= b' < 8
    ensures Pixel(r, g, b, 16) == Pixel(r', g', b', 16) <==> r == r' && g == g' && b == b'
    ensures 0 <= Pixel(r, g, b, 16) < 0x1_0000
  {
  }

  lemma Pixel24(r: int, g: int, b: int, r': int, g': int, b': int)
    requires 0 <= r < 8 && 0 <= g < 8 && 0 <= b < 8 && 0 <= r' < 8 && 0 <= g' < 8 && 0 <= b' < 8
    ensures Pixel(r, g, b, 24) == Pixel(r', g', b', 24) <==> r == r' && g == g' && b == b'
    ensures 0 <= Pixel(r, g, b, 24) < 0x100_0000
  {
    Digits(r, b, g, r', b', g', 0x100);
    assert Pixel(r, g, b, 24) == 0x20 * (r + 0x100 * (b + 0x100 * g));
    assert Pixel(r', g', b', 24) == 0x20 * (r' + 0x100 * (b' + 0x100 * g'));
    hide Pixel;
  }

  lemma ScaleIsInjective(c: int, c': int)
    requires 0 <= c < 8 && 0 <= c' < 8
    ensures Scale(c) == Scale(c') <==> c == c'
  {
  }

  lemma ScaledPixel(r: int, g: int, b: int, r': int, g': int, b': int)
    requires 0 <= r < 8 && 0 <= g < 8 && 0 <= b < 8 && 0 <= r' < 8 && 0 <= g' < 8 && 0 <= b' < 8
    ensures Pixel(r, g, b, 32) == Pixel(r', g', b', 32) <==> r == r' && g == g' && b == b'
    ensures 0 <= Pixel(r, g, b, 32) < 0x100_0000
  {
    hide Scale;
    ScaleIsInjective(r, r');
    ScaleIsInjective(g, g');
    ScaleIsInjective(b, b');
    Digits(Scale(b), Scale(g), Scale(r), Scale(b'), Scale(g'), Scale(r'), 0x100);
  }

  // ----------------------------------------------------------------------- sprite order

  /** The byte a sprite link is read from; the link is not masked, so the walk may leave VRAM for what is stored
      behind it, CRAM first and VSRAM next. */
  function LinkAddress(reg5: Byte, sprite: int): int {
    var r: int := reg5;
    r * 0x200 + sprite * 8 + 3
  }

  function LinkAt(mem: seq<Byte>, reg5: Byte, sprite: int): Byte
    requires sprite >= 0
  {
    var a := LinkAddress(reg5, sprite);
    if a < |mem| then mem[a] else 0
  }

  /** The sprites that follow one, at most `room` of them; link 0 ends the list. */
  function Links(mem: seq<Byte>, reg5: Byte, sprite: int, room: nat): seq<int>
    requires sprite >= 0
    decreases room
  {
    if room == 0 then []
    else
      var next := LinkAt(mem, reg5, sprite);
      [next as int] + if next == 0 then [] else Links(mem, reg5, next, room - 1)
  }

  function OrderOf(mem: seq<Byte>, reg5: Byte, limit: nat): seq<int> { [0] + Links(mem, reg5, 0, limit) }

  function Memory(v: Vdp): (mem: seq<Byte>)
    requires v.Valid()
    ensures |mem| == VRAM_SIZE + CRAM_SIZE + VSRAM_SIZE
  {
    v.vram + (v.cram + v.vsram)
  }

  /** The number of links followed: 80 in H40, 64 in H32. */
  function Limit(reg12: Byte): nat { if reg12 % 2 == 1 then 80 else 64 }

  /** The entry after place i is the link of the entry there, and the list had a reason to go on from it. */
  ghost predicate Linked(l: seq<int>, i: int, mem: seq<Byte>, reg5: Byte)
    requires 0 <= i < |l| - 1
  {
    l[i] >= 0 && l[i + 1] == LinkAt(mem, reg5, l[i]) && (i > 0 ==> l[i] != 0)
  }

  /** A list in which every sprite is the link of the one before it and that stops at the first link 0, or full. */
  ghost predicate IsWalk(l: seq<int>, mem: seq<Byte>, reg5: Byte, room: nat) {
    && 2 <= |l| <= room + 1
    && (forall i :: 0 <= i < |l| - 1 ==> Linked(l, i, mem, reg5))
    && (l[|l| - 1] == 0 || |l| == room + 1)
  }

  lemma ConsWalk(sprite: int, tail: seq<int>, mem: seq<Byte>, reg5: Byte, room: nat)
    requires sprite >= 0 && IsWalk(tail, mem, reg5, room) && tail[0] == LinkAt(mem, reg5, sprite) != 0
    ensures IsWalk([sprite] + tail, mem, reg5, room + 1)
  {
    hide LinkAt;
    var l := [sprite] + tail;
    forall i | 0 <= i < |l| - 1 ensures Linked(l, i, mem, reg5) {
      if i > 0 {
        assert Linked(tail, i - 1, mem, reg5);
        assert l[i] == tail[i - 1];
      }
    }
  }

  lemma {:induction false} LinksAreAWalk(mem: seq<Byte>, reg5: Byte, sprite: int, room: nat)
    requires sprite >= 0 && room > 0
    ensures IsWalk([sprite] + Links(mem, reg5, sprite, room), mem, reg5, room)
    decreases room
  {
    var next := LinkAt(mem, reg5, sprite);
    hide LinkAt;
    if next != 0 && room > 1 {
      LinksAreAWalk(mem, reg5, next, room - 1);
      assert Links(mem, reg5, sprite, room) == [next as int] + Links(mem, reg5, next, room - 1);
      hide *;
      ConsWalk(sprite, [next as int] + Links(mem, reg5, next, room - 1), mem, reg5, room - 1);
    }
  }

  lemma LastLink(mem: seq<Byte>, reg5: Byte, sprite: int, room: nat)
    requires sprite >= 0 && room > 0 && (room == 1 || LinkAt(mem, reg5, sprite) == 0)
    ensures Links(mem, reg5, sprite, room) == [LinkAt(mem, reg5, sprite) as int]
  {
    hide LinkAt;
  }

  lemma TailOfWalk(l: seq<int>, mem: seq<Byte>, reg5: Byte, room: nat)
    requires IsWalk(l, mem, reg5, room) && |l| > 2
    ensures IsWalk(l[1..], mem, reg5, room - 1) && l[1] != 0
  {
    hide LinkAt;
    var tail := l[1..];
    assert Linked(l, 1, mem, reg5);
    forall i | 0 <= i < |tail| - 1 ensures Linked(tail, i, mem, reg5) {
      assert Linked(l, i + 1, mem, reg5);
    }
  }

  lemma ShortWalk(l: seq<int>, mem: seq<Byte>, reg5: Byte, room: nat)
    requires IsWalk(l, mem, reg5, room) && |l| == 2
    ensures room > 0 && l[0] >= 0 && l == [l[0]] + Links(mem, reg5, l[0], room)
  {
    assert Linked(l, 0, mem, reg5);
    hide Links, LinkAt;
    LastLink(mem, reg5, l[0], room);
  }

  lemma WalkStarts(l: seq<int>, mem: seq<Byte>, reg5: Byte, room: nat)
    requires IsWalk(l, mem, reg5, room)
    ensures 2 <= |l| <= room + 1 && Linked(l, 0, mem, reg5) && l[0] >= 0 && l[1] == LinkAt(mem, reg5, l[0])
  {
    assert Linked(l, 0, mem, reg5);
    hide LinkAt;
  }

  lemma FirstLink(mem: seq<Byte>, reg5: Byte, sprite: int, room: nat)
    requires sprite >= 0 && room > 1 && LinkAt(mem, reg5, sprite) != 0
    ensures var next := LinkAt(mem, reg5, sprite);
            Links(mem, reg5, sprite, room) == [next as int] + Links(mem, reg5, next, room - 1)
  {
    hide LinkAt;
  }

  lemma {:induction false} WalksAreUnique(l: seq<int>, mem: seq<Byte>, reg5: Byte, room: nat)
    requires IsWalk(l, mem, reg5, room)
    ensures room > 0 && |l| > 0 && l[0] >= 0 && l == [l[0]] + Links(mem, reg5, l[0], room)
    decreases room
  {
    hide *;
    WalkStarts(l, mem, reg5, room);
    if |l| > 2 {
      var tail := l[1..];
      TailOfWalk(l, mem, reg5, room);
      WalksAreUnique(tail, mem, reg5, room - 1);
      FirstLink(mem, reg5, l[0], room);
      assert l == [l[0]] + tail;
    } else {
      ShortWalk(l, mem, reg5, room);
    }
  }

  /** The order is the walk from sprite 0 and nothing else; it ends within its limit even when the links form a
      cycle. */
  lemma OrderIsTheWalk(l: seq<int>, mem: seq<Byte>, reg5: Byte, limit: nat)
    requires limit > 0
    ensures l == OrderOf(mem, reg5, limit) <==> IsWalk(l, mem, reg5, limit) && l[0] == 0
  {
    LinksAreAWalk(mem, reg5, 0, limit);
    if IsWalk(l, mem, reg5, limit) && l[0] == 0 {
      WalksAreUnique(l, mem, reg5, limit);
    }
    hide IsWalk, Links;
  }

  /** Every link of the list is read below an address. */
  ghost predicate ReadsBelow(l: seq<int>, reg5: Byte, bound: int) {
    forall i :: 0 <= i < |l| - 1 ==> LinkAddress(reg5, l[i]) < bound
  }

  lemma LinkBelow(reg5: Byte, sprite: int, bound: int)
    requires reg5 <= 0x7c && 0 <= sprite < 0x100 && bound >= VRAM_SIZE
    ensures 0 <= LinkAddress(reg5, sprite) < bound
  {
  }

  lemma LowTableIsRead(mem: seq<Byte>, reg5: Byte, limit: nat)
    requires limit > 0 && reg5 <= 0x7c
    ensures ReadsBelow(OrderOf(mem, reg5, limit), reg5, VRAM_SIZE)
  {
    var l := OrderOf(mem, reg5, limit);
    OrderIsTheWalk(l, mem, reg5, limit);
    hide OrderOf, LinkAddress;
    forall i | 0 <= i < |l| - 1 ensures LinkAddress(reg5, l[i]) < VRAM_SIZE {
      if i > 0 { assert Linked(l, i - 1, mem, reg5); }
      LinkBelow(reg5, l[i], VRAM_SIZE);
    }
  }

  /** A list whose first link is not 0 reads that sprite's link next. */
  lemma SecondLink(l: seq<int>, mem: seq<Byte>, reg5: Byte, limit: nat)
    requires limit > 1 && l == OrderOf(mem, reg5, limit) && LinkAt(mem, reg5, 0) != 0
    ensures |l| > 2 && l[0] == 0 && l[1] == LinkAt(mem, reg5, 0)
  {
    OrderIsTheWalk(l, mem, reg5, limit);
    assert Linked(l, 0, mem, reg5);
    hide OrderOf, Links, LinkAt;
  }

  /** All zero but for the link of sprite 0. */
  function OneLink(reg5: Byte): seq<Byte> { seq(VRAM_SIZE, i => if i == LinkAddress(reg5, 0) then 0xff else 0) }

  lemma HighTableLeaves(reg5: Byte, limit: nat)
    requires limit > 1 && reg5 > 0x7c
    ensures !ReadsBelow(OrderOf(OneLink(reg5), reg5, limit), reg5, VRAM_SIZE)
  {
    var mem := OneLink(reg5);
    var l := OrderOf(mem, reg5, limit);
    if reg5 < 0x80 {
      assert mem[LinkAddress(reg5, 0)] == 0xff;
      assert LinkAt(mem, reg5, 0) == 0xff && LinkAddress(reg5, 0xff) >= VRAM_SIZE;
      SecondLink(l, mem, reg5, limit);
    } else {
      assert l[0] == 0 && |l| > 1 && LinkAddress(reg5, 0) >= VRAM_SIZE by { hide LinkAt; }
    }
    hide OrderOf, LinkAt, OneLink, LinkAddress;
  }

  /** What a program can see to beforehand: the links are read inside VRAM, whatever they are, exactly when the table
      starts at 0xf800 or below. */
  lemma TableIsSafeExactlyWhen(reg5: Byte, limit: nat)
    requires limit > 1
    ensures (forall mem: seq<Byte> :: ReadsBelow(OrderOf(mem, reg5, limit), reg5, VRAM_SIZE)) <==> reg5 <= 0x7c
  {
    hide OrderOf, ReadsBelow, OneLink;
    if reg5 <= 0x7c {
      forall mem: seq<Byte> ensures ReadsBelow(OrderOf(mem, reg5, limit), reg5, VRAM_SIZE) {
        LowTableIsRead(mem, reg5, limit);
      }
    } else {
      HighTableLeaves(reg5, limit);
    }
  }

  /** Memories that agree where the list was read have the same list. */
  lemma SameReadsSameOrder(l: seq<int>, a: seq<Byte>, b: seq<Byte>, reg5: Byte, limit: nat, bound: nat)
    requires limit > 0 && bound <= |a| && bound <= |b| && a[..bound] == b[..bound]
    requires l == OrderOf(a, reg5, limit) && ReadsBelow(l, reg5, bound)
    ensures l == OrderOf(b, reg5, limit)
  {
    OrderIsTheWalk(l, a, reg5, limit);
    assert forall x :: 0 <= x < bound ==> a[x] == a[..bound][x] && b[x] == b[..bound][x];
    hide OrderOf, Links;
    forall i | 0 <= i < |l| - 1 ensures Linked(l, i, b, reg5) {
      assert Linked(l, i, a, reg5);
    }
    OrderIsTheWalk(l, b, reg5, limit);
  }

  /** Changing a byte the list was read from changes the list. */
  lemma OtherReadOtherOrder(l: seq<int>, i: nat, a: seq<Byte>, b: seq<Byte>, reg5: Byte, limit: nat)
    requires limit > 0 && l == OrderOf(a, reg5, limit) && i < |l| - 1 && l[i] >= 0
    requires LinkAt(a, reg5, l[i]) != LinkAt(b, reg5, l[i])
    ensures l != OrderOf(b, reg5, limit)
  {
    OrderIsTheWalk(l, a, reg5, limit);
    OrderIsTheWalk(l, b, reg5, limit);
    assert l == OrderOf(b, reg5, limit) ==> Linked(l, i, a, reg5) && Linked(l, i, b, reg5);
    hide OrderOf, Links, LinkAt;
  }

  // --------------------------------------------------------------------------- caches

  /** The VDP with what the renderer keeps: the palette and the depth it was made for, and the sprite order and the
      limit it was made under. */
  datatype Display = Display(vdp: Vdp, highpal: seq<int>, depth: int, order: seq<int>, limit: nat) {
    ghost predicate Valid() { vdp.Valid() && limit > 0 }
  }

  const BASE_CHANGED := REG_BITS + 5

  function RefreshPalette(d: Display, bpp: int): (r: Display)
    requires d.Valid()
    ensures r.Valid()
  {
    if Bit(d.vdp.dirt, CRAM_CHANGED) then
      d.(highpal := Decode(d.vdp.cram, bpp), depth := bpp, vdp := d.vdp.(dirt := ClearBit(d.vdp.dirt, CRAM_CHANGED)))
    else d
  }

  predicate ScreenOn(v: Vdp)
    requires v.Valid()
  {
    var r: int := v.reg[1];
    r / 0x40 % 2 == 1
  }

  predicate OrderDirty(v: Vdp)
    requires v.Valid()
  {
    Bit(v.dirt, BASE_CHANGED) || Bit(v.dirt, VRAM_CHANGED)
  }

  function OrderCleaned(v: Vdp): (r: Vdp)
    requires v.Valid()
    ensures r.Valid()
  {
    v.(dirt := ClearBit(ClearBit(v.dirt, BASE_CHANGED), VRAM_CHANGED))
  }

  function RefreshOrder(d: Display): (r: Display)
    requires d.Valid()
    ensures r.Valid()
  {
    if ScreenOn(d.vdp) && OrderDirty(d.vdp) then
      var limit := Limit(d.vdp.reg[12]);
      d.(order := OrderOf(Memory(d.vdp), d.vdp.reg[5], limit), limit := limit, vdp := OrderCleaned(d.vdp))
    else d
  }

  datatype Step = Port(op: Access) | Scanline(bpp: int)

  function Go(d: Display, step: Step): (r: Display)
    requires d.Valid()
    ensures r.Valid()
  {
    match step
    case Scanline(bpp) => RefreshOrder(RefreshPalette(d, bpp))
    case Port(op) =>
      var v := Do(d.vdp, op);
      if op == Reset then d.(vdp := v, highpal := seq(64, _ => 0), order := [0]) else d.(vdp := v)
  }

  function GoAll(d: Display, steps: seq<Step>): (r: Display)
    requires d.Valid()
    ensures r.Valid()
    decreases |steps|
  {
    if steps == [] then d else GoAll(Go(d, steps[0]), steps[1..])
  }

  /** A clear palette bit means that the palette is right. */
  ghost predicate PaletteHonest(d: Display)
    requires d.Valid()
  {
    !Bit(d.vdp.dirt, CRAM_CHANGED) ==> d.highpal == Decode(d.vdp.cram, d.depth)
  }

  /** Clear sprite bits mean that the order was read from what VRAM holds now, if perhaps with other bytes behind. */
  ghost predicate OrderHonest(d: Display)
    requires d.Valid()
  {
    !OrderDirty(d.vdp) ==> exists behind: seq<Byte> :: FromVram(d, behind)
  }

  ghost predicate FromVram(d: Display, behind: seq<Byte>)
    requires d.Valid()
  {
    d.order == OrderOf(d.vdp.vram + behind, d.vdp.reg[5], d.limit)
  }

  ghost predicate Honest(d: Display)
    requires d.Valid()
  {
    PaletteHonest(d) && OrderHonest(d)
  }

  lemma SameSeq(a: seq<Byte>, b: seq<Byte>)
    requires |a| == |b| && forall x :: 0 <= x < |a| ==> a[x] == b[x]
    ensures a == b
  {
  }

  /** What is not marked has not changed. */
  lemma UnmarkedIsUnchanged(a: Vdp, b: Vdp)
    requires a.Valid() && b.Valid() && Grew(a, b)
    ensures !Bit(b.dirt, CRAM_CHANGED) ==> !Bit(a.dirt, CRAM_CHANGED) && a.cram == b.cram
    ensures !OrderDirty(b) ==> !OrderDirty(a) && a.vram == b.vram && a.reg[5] == b.reg[5]
  {
    hide Bit;
    if !Bit(b.dirt, CRAM_CHANGED) { SameSeq(a.cram, b.cram); }
    if !OrderDirty(b) { SameSeq(a.vram, b.vram); }
  }

  lemma AccessKeepsHonest(d: Display, op: Access)
    requires d.Valid() && Honest(d)
    ensures Honest(Go(d, Port(op)))
  {
    var r := Go(d, Port(op));
    if op == Reset {
      var dirt := r.vdp.dirt;
      assert dirt[CRAM_CHANGED / 8] == 0xff && dirt[BASE_CHANGED / 8] == 0xff;
    } else {
      DoGrows(d.vdp, op);
      UnmarkedIsUnchanged(d.vdp, r.vdp);
      hide Bit, Do, Grew, Decode, OrderOf, OrderDirty;
      if !OrderDirty(r.vdp) {
        var behind :| FromVram(d, behind);
        assert FromVram(r, behind);
      }
    }
  }

  lemma PaletteKeepsHonest(d: Display, bpp: int)
    requires d.Valid() && Honest(d)
    ensures Honest(RefreshPalette(d, bpp))
  {
    var r := RefreshPalette(d, bpp);
    var dirt := d.vdp.dirt;
    SetBitIsExact(dirt, CRAM_CHANGED, BASE_CHANGED);
    SetBitIsExact(dirt, CRAM_CHANGED, VRAM_CHANGED);
    assert OrderDirty(r.vdp) == OrderDirty(d.vdp);
    assert r.(highpal := d.highpal, depth := d.depth, vdp := d.vdp) == d;
    hide Bit, SetBit, ClearBit, Decode, OrderOf, OrderDirty;
    if !OrderDirty(r.vdp) {
      var behind :| FromVram(d, behind);
      assert FromVram(r, behind);
    }
  }

  lemma OrderKeepsHonest(d: Display)
    requires d.Valid() && Honest(d)
    ensures Honest(RefreshOrder(d))
  {
    var r := RefreshOrder(d);
    var dirt := d.vdp.dirt;
    SetBitIsExact(dirt, BASE_CHANGED, CRAM_CHANGED);
    SetBitIsExact(ClearBit(dirt, BASE_CHANGED), VRAM_CHANGED, CRAM_CHANGED);
    hide Bit, SetBit, ClearBit, Decode, OrderOf, OrderDirty, ScreenOn;
    if ScreenOn(d.vdp) && OrderDirty(d.vdp) {
      assert FromVram(r, d.vdp.cram + d.vdp.vsram);
    }
  }

  /** Over every run of port accesses, DMA and drawn lines, the caches stay honest. */
  lemma {:induction false} CachesStayHonest(d: Display, steps: seq<Step>)
    requires d.Valid() && Honest(d)
    ensures Honest(GoAll(d, steps))
    decreases |steps|
  {
    hide Honest, RefreshOrder, RefreshPalette, Do;
    if steps != [] {
      match steps[0] {
        case Port(op) => AccessKeepsHonest(d, op);
        case Scanline(bpp) =>
          PaletteKeepsHonest(d, bpp);
          OrderKeepsHonest(RefreshPalette(d, bpp));
      }
      CachesStayHonest(Go(d, steps[0]), steps[1..]);
    }
  }

  /** What honesty is worth to the renderer: a clear palette bit means the palette of the current CRAM, and clear
      sprite bits mean the order of the current memory, as long as the order was read inside VRAM. */
  lemma CleanMeansCurrent(d: Display)
    requires d.Valid() && Honest(d)
    ensures !Bit(d.vdp.dirt, CRAM_CHANGED) ==> d.highpal == Decode(d.vdp.cram, d.depth)
    ensures !OrderDirty(d.vdp) && ReadsBelow(d.order, d.vdp.reg[5], VRAM_SIZE)
            ==> d.order == OrderOf(Memory(d.vdp), d.vdp.reg[5], d.limit)
  {
    hide Bit, OrderDirty, Decode, OrderOf, ReadsBelow;
    if !OrderDirty(d.vdp) && ReadsBelow(d.order, d.vdp.reg[5], VRAM_SIZE) {
      var behind :| FromVram(d, behind);
      var now := d.vdp.cram + d.vdp.vsram;
      assert (d.vdp.vram + behind)[..VRAM_SIZE] == (d.vdp.vram + now)[..VRAM_SIZE];
      SameReadsSameOrder(d.order, d.vdp.vram + behind, d.vdp.vram + now, d.vdp.reg[5], d.limit, VRAM_SIZE);
    }
  }

  /** Other contents of CRAM and VSRAM than the current ones. */
  function Behind(v: Vdp, behind: seq<Byte>): (mem: seq<Byte>)
    requires v.Valid() && |behind| == CRAM_SIZE + VSRAM_SIZE
    ensures |mem| == VRAM_SIZE + CRAM_SIZE + VSRAM_SIZE
  {
    v.vram + behind
  }

  /** The order of a clean display is safe from writes to CRAM and VSRAM, none of which make it dirty, exactly when
      it was read inside VRAM. */
  lemma OrderIsSafeExactlyWhen(d: Display)
    requires d.Valid() && d.order == OrderOf(Memory(d.vdp), d.vdp.reg[5], d.limit)
    requires ReadsBelow(d.order, d.vdp.reg[5], VRAM_SIZE + CRAM_SIZE + VSRAM_SIZE)
    ensures ReadsBelow(d.order, d.vdp.reg[5], VRAM_SIZE)
            <==> forall behind: seq<Byte> :: |behind| == CRAM_SIZE + VSRAM_SIZE ==>
                   d.order == OrderOf(Behind(d.vdp, behind), d.vdp.reg[5], d.limit)
  {
    var mem, reg5 := Memory(d.vdp), d.vdp.reg[5];
    hide OrderOf, ReadsBelow;
    if ReadsBelow(d.order, reg5, VRAM_SIZE) {
      forall behind: seq<Byte> | |behind| == CRAM_SIZE + VSRAM_SIZE
        ensures d.order == OrderOf(Behind(d.vdp, behind), reg5, d.limit)
      {
        assert mem[..VRAM_SIZE] == Behind(d.vdp, behind)[..VRAM_SIZE];
        SameReadsSameOrder(d.order, mem, Behind(d.vdp, behind), reg5, d.limit, VRAM_SIZE);
      }
    } else {
      var behind := OtherBehind(d);
      assert d.order != OrderOf(Behind(d.vdp, behind), reg5, d.limit);
    }
  }

  lemma OtherBehind(d: Display) returns (behind: seq<Byte>)
    requires d.Valid() && d.order == OrderOf(Memory(d.vdp), d.vdp.reg[5], d.limit)
    requires ReadsBelow(d.order, d.vdp.reg[5], VRAM_SIZE + CRAM_SIZE + VSRAM_SIZE)
    requires !ReadsBelow(d.order, d.vdp.reg[5], VRAM_SIZE)
    ensures |behind| == CRAM_SIZE + VSRAM_SIZE
    ensures d.order != OrderOf(Behind(d.vdp, behind), d.vdp.reg[5], d.limit)
  {
    var mem, reg5 := Memory(d.vdp), d.vdp.reg[5];
    var i: nat :| i < |d.order| - 1 && LinkAddress(reg5, d.order[i]) >= VRAM_SIZE;
    OrderIsTheWalk(d.order, mem, reg5, d.limit);
    assert Linked(d.order, i, mem, reg5);
    var x := LinkAddress(reg5, d.order[i]) - VRAM_SIZE;
    var now := d.vdp.cram + d.vdp.vsram;
    behind := now[x := if now[x] == 0 then 1 else 0];
    assert mem[VRAM_SIZE + x] == now[x] && Behind(d.vdp, behind)[VRAM_SIZE + x] == behind[x];
    OtherReadOtherOrder(d.order, i, mem, Behind(d.vdp, behind), reg5, d.limit);
    hide *;
  }

  /** How it goes wrong: a write to the CRAM byte that a link was read from leaves the sprite bits clean and the order
      out of date. */
  lemma CramWriteGoesUnnoticed(d: Display, i: nat, c: nat, x: Byte)
    requires d.Valid() && !OrderDirty(d.vdp) && d.order == OrderOf(Memory(d.vdp), d.vdp.reg[5], d.limit)
    requires i < |d.order| - 1 && LinkAddress(d.vdp.reg[5], d.order[i]) == VRAM_SIZE + c && c < CRAM_SIZE
    requires x != d.vdp.cram[c]
    ensures var v := PokeCram(d.vdp, c, x); !OrderDirty(v) && d.order != OrderOf(Memory(v), v.reg[5], d.limit)
  {
    hide PokeCram, OrderOf, Memory, LinkAt, LinkAddress, OrderDirty;
    var v, mem := PokeCram(d.vdp, c, x), Memory(d.vdp);
    CramPoke(d.vdp, c, x);
    CramByte(d.vdp, c, x);
    EntryOfOrder(d.order, i, mem, d.vdp.reg[5], d.limit);
    LinkInCram(d.order, i, d.vdp, c, d.limit);
    LinkInCram(d.order, i, v, c, d.limit);
    OtherReadOtherOrder(d.order, i, mem, Memory(v), d.vdp.reg[5], d.limit);
  }

  lemma EntryOfOrder(l: seq<int>, i: nat, mem: seq<Byte>, reg5: Byte, limit: nat)
    requires limit > 0 && l == OrderOf(mem, reg5, limit) && i < |l| - 1
    ensures l[i] >= 0
  {
    OrderIsTheWalk(l, mem, reg5, limit);
    assert Linked(l, i, mem, reg5);
    hide OrderOf, LinkAt;
  }

  lemma CramByte(v: Vdp, c: nat, x: Byte)
    requires v.Valid() && c < CRAM_SIZE
    ensures PokeCram(v, c, x).cram[c] == x
  {
    PokeCramExactly(v, c, x, 0);
    hide PokeCram, Bit;
  }

  lemma LinkInCram(l: seq<int>, i: nat, v: Vdp, c: nat, limit: nat)
    requires v.Valid() && i < |l| - 1 && l[i] >= 0 && c < CRAM_SIZE && LinkAddress(v.reg[5], l[i]) == VRAM_SIZE + c
    ensures LinkAt(Memory(v), v.reg[5], l[i]) == v.cram[c]
  {
  }

  // --------------------------------------------------------------- a run that goes wrong

  const NO_BUS := Bus([], 0)

  /** The port accesses that write a word to a memory. */
  function Store(code: nat, a: Word, d: Word): seq<Step>
    requires code < 0x20
  {
    [Port(Control(FirstWord(code, a), NO_BUS)), Port(Control(SecondWord(code, a), NO_BUS)), Port(Data(d))]
  }

  lemma {:induction false} GoAllAppend(d: Display, xs: seq<Step>, ys: seq<Step>)
    requires d.Valid()
    ensures GoAll(d, xs + ys) == GoAll(GoAll(d, xs), ys)
    decreases |xs|
  {
    hide Go, Display.Valid;
    if xs == [] {
      assert [] + ys == ys;
    } else {
      assert (xs + ys)[1..] == xs[1..] + ys;
      GoAllAppend(Go(d, xs[0]), xs[1..], ys);
    }
  }

  lemma GoOne(d: Display, x: Step)
    requires d.Valid()
    ensures GoAll(d, [x]) == Go(d, x)
  {
    hide Go, Display.Valid;
    assert [x][1..] == [];
    assert GoAll(Go(d, x), []) == Go(d, x);
  }

  lemma StoreSends(d: Display, code: nat, a: Word, w: Word)
    requires d.Valid() && code < 0x20
    ensures GoAll(d, Store(code, a, w)) == d.(vdp := Sent(Aim(d.vdp, code, a, NO_BUS), w))
  {
    var x, y, z := Port(Control(FirstWord(code, a), NO_BUS)), Port(Control(SecondWord(code, a), NO_BUS)), Port(Data(w));
    assert Store(code, a, w) == [x] + ([y] + [z]);
    var e := Go(d, x);
    var f := Go(e, y);
    hide WriteControl, WriteWord, GoAll, FirstWord, SecondWord, Vdp.Valid, Store;
    GoAllAppend(d, [x], [y] + [z]);
    GoOne(d, x);
    GoAllAppend(e, [y], [z]);
    GoOne(e, y);
    GoOne(f, z);
  }

  /** What a word sent to CRAM or VRAM leaves alone. */
  lemma SentElsewhere(v: Vdp, code: nat, a: Word, w: Word)
    requires v.Valid() && !v.pending && (code == VRAM_WRITE || code == CRAM_WRITE)
    ensures var r := Sent(Aim(v, code, a, NO_BUS), w);
            && r.reg == v.reg && !r.pending
            && (code == VRAM_WRITE ==> r.cram == v.cram && r.vsram == v.vsram)
            && (code == CRAM_WRITE ==> r.vram == v.vram && r.vsram == v.vsram && OrderDirty(r) == OrderDirty(v))
  {
    CodeOf(code);
    AimSets(v, code, a, NO_BUS);
    var q := Aim(v, code, a, NO_BUS);
    SentPair(q, w);
    PokeElsewhere(q, w / 0x100, w % 0x100);
    assert q.dirt == v.dirt;
    hide Aim, Sent, PokeTwo, Bit;
  }

  lemma PokeElsewhere(q: Vdp, first: Byte, second: Byte)
    requires q.Valid() && (q.mode == WRITE_VRAM || q.mode == WRITE_CRAM)
    ensures var p := PokeTwo(q, first, second);
            && p.reg == q.reg && (q.mode == WRITE_VRAM ==> p.cram == q.cram && p.vsram == q.vsram)
            && (q.mode == WRITE_CRAM ==> p.vram == q.vram && p.vsram == q.vsram && OrderDirty(p) == OrderDirty(q))
  {
    hide PokeVram, PokeCram, OrderDirty, Vdp.Valid;
    if q.mode == WRITE_CRAM {
      CramPoke(q, q.addr, first);
      CramPoke(PokeCram(q, q.addr, first), q.addr + 1, second);
    } else {
      VramPoke(q, q.addr, first);
      VramPoke(PokeVram(q, q.addr, first), q.addr + 1, second);
      VramPoke(q, q.addr, second);
      VramPoke(PokeVram(q, q.addr, second), q.addr + 1, first);
    }
  }

  lemma CramPoke(q: Vdp, a: int, x: Byte)
    requires q.Valid()
    ensures var p := PokeCram(q, a, x);
            p.reg == q.reg && p.vram == q.vram && p.vsram == q.vsram && OrderDirty(p) == OrderDirty(q)
  {
    PokeCramExactly(q, a, x, BASE_CHANGED);
    PokeCramExactly(q, a, x, VRAM_CHANGED);
    hide Bit, PokeCram;
  }

  lemma VramPoke(q: Vdp, a: int, x: Byte)
    requires q.Valid()
    ensures var p := PokeVram(q, a, x); p.reg == q.reg && p.cram == q.cram && p.vsram == q.vsram
  {
    PokeVramExactly(q, a, x, 0);
    hide Bit, PokeVram;
  }

  /** A table at 0xfe00, the screen on, and a link from sprite 0 to sprite 64, whose own link lies in CRAM. */
  const SETUP := [Port(Control(0x857f, NO_BUS)), Port(Control(0x8140, NO_BUS))]

  /** The control word that sets a register. */
  function RegisterPort(n: nat, x: Byte): Step
    requires n < REGISTERS
  {
    Port(Control(0x8000 + n * 0x100 + x, NO_BUS))
  }

  lemma SetupParts()
    ensures SETUP == [RegisterPort(5, 0x7f)] + [RegisterPort(1, 0x40)]
  {
  }

  lemma SetupDone(d: Display)
    requires d.Valid() && d.vdp == PowerOn()
    ensures var r := GoAll(d, SETUP);
            && r.Valid() && !r.vdp.pending && r.vdp.reg[5] == 0x7f && r.vdp.reg[1] == 0x40 && r.vdp.reg[12] == 0
            && r.vdp.cram == PowerOn().cram
  {
    hide GoAll, Go, PowerOn, RegisterPort, SETUP;
    var x, y := RegisterPort(5, 0x7f), RegisterPort(1, 0x40);
    SetupParts();
    PowerOnRegisters();
    GoAllAppend(d, [x], [y]);
    GoOne(d, x);
    RegisterSet(d, 5, 0x7f);
    GoOne(Go(d, x), y);
    RegisterSet(Go(d, x), 1, 0x40);
  }

  lemma RegisterSet(d: Display, n: nat, x: Byte)
    requires d.Valid() && !d.vdp.pending && n < REGISTERS
    ensures var r := Go(d, RegisterPort(n, x));
            && r.Valid() && r == d.(vdp := r.vdp)
            && r.vdp.reg == d.vdp.reg[n := x] && !r.vdp.pending && r.vdp.cram == d.vdp.cram
  {
    RegisterWord(n, x);
    WriteRegExactly(d.vdp, n, x, 0);
    hide WriteReg, Command, Bit;
  }

  lemma RegisterWord(n: nat, x: Byte)
    requires n < REGISTERS
    ensures var w := 0x8000 + n * 0x100 + x; w < 0x1_0000 && w / 0x4000 == 2 && w / 0x100 % 0x20 == n && w % 0x100 == x
  {
  }

  lemma PowerOnRegisters()
    ensures !PowerOn().pending && PowerOn().reg[12] == 0
  {
  }

  /** A drawn line makes the order current and the bits clean. */
  lemma LineRebuilds(d: Display)
    requires d.Valid() && ScreenOn(d.vdp) && OrderDirty(d.vdp)
    ensures var r := Go(d, Scanline(32));
            && r.order == OrderOf(Memory(r.vdp), r.vdp.reg[5], r.limit) && r.limit == Limit(r.vdp.reg[12])
            && !OrderDirty(r.vdp) && r.vdp == d.vdp.(dirt := r.vdp.dirt)
  {
    var p := RefreshPalette(d, 32);
    PaletteOnly(d, 32);
    CleanedIsClean(p.vdp);
    hide RefreshPalette, OrderDirty, OrderCleaned, OrderOf, Memory;
  }

  lemma PaletteOnly(d: Display, bpp: int)
    requires d.Valid()
    ensures var p := RefreshPalette(d, bpp);
            p.vdp == d.vdp.(dirt := p.vdp.dirt) && OrderDirty(p.vdp) == OrderDirty(d.vdp)
  {
    SetBitIsExact(d.vdp.dirt, CRAM_CHANGED, BASE_CHANGED);
    SetBitIsExact(d.vdp.dirt, CRAM_CHANGED, VRAM_CHANGED);
    hide Bit, ClearBit, SetBit, Decode;
  }

  lemma CleanedIsClean(v: Vdp)
    requires v.Valid()
    ensures var r := OrderCleaned(v); !OrderDirty(r) && r == v.(dirt := r.dirt) && Memory(r) == Memory(v)
  {
    var one := ClearBit(v.dirt, BASE_CHANGED);
    SetBitIsExact(v.dirt, BASE_CHANGED, BASE_CHANGED);
    SetBitIsExact(one, VRAM_CHANGED, BASE_CHANGED);
    SetBitIsExact(one, VRAM_CHANGED, VRAM_CHANGED);
    hide Bit, ClearBit;
  }

  /** The order has three entries, the last of them from CRAM. */
  lemma ThirdEntry(l: seq<int>, mem: seq<Byte>, limit: nat)
    requires |mem| == VRAM_SIZE + CRAM_SIZE + VSRAM_SIZE && limit > 1
    requires l == OrderOf(mem, 0x7f, limit) && mem[0xfe03] == 64
    ensures |l| > 2 && l[1] == 64 && LinkAt(mem, 0x7f, 64) == mem[0x1_0003]
  {
    OrderIsTheWalk(l, mem, 0x7f, limit);
    assert Linked(l, 0, mem, 0x7f);
    hide OrderOf, Links;
  }

  predicate PortsOnly(steps: seq<Step>) { forall i :: 0 <= i < |steps| ==> steps[i].Port? }

  /** Accesses alone mark whatever they change. */
  lemma {:induction false} PortsGrow(d: Display, steps: seq<Step>)
    requires d.Valid() && PortsOnly(steps)
    ensures Grew(d.vdp, GoAll(d, steps).vdp)
    decreases |steps|
  {
    hide Grew, Do;
    if steps == [] {
      GrewReflexive(d.vdp, d.vdp);
    } else {
      var e := Go(d, steps[0]);
      DoGrows(d.vdp, steps[0].op);
      PortsGrow(e, steps[1..]);
      GrewTransitive(d.vdp, e.vdp, GoAll(d, steps).vdp);
    }
  }

  /** No port access cleans the order. */
  lemma {:induction false} PortsKeepDirty(d: Display, steps: seq<Step>)
    requires d.Valid() && OrderDirty(d.vdp) && PortsOnly(steps)
    ensures OrderDirty(GoAll(d, steps).vdp)
    decreases |steps|
  {
    if steps != [] {
      var op := steps[0].op;
      DoGrows(d.vdp, op);
      UnmarkedIsUnchanged(d.vdp, Do(d.vdp, op));
      hide OrderDirty, Do, Grew;
      PortsKeepDirty(Go(d, steps[0]), steps[1..]);
    }
  }

  lemma StoredLink(v: Vdp)
    requires v.Valid() && !v.pending
    ensures var r := Sent(Aim(v, VRAM_WRITE, 0xfe02, NO_BUS), 64);
            r.vram[0xfe03] == 64 && r.cram == v.cram && r.reg == v.reg && !r.pending
  {
    SentTo(v, VRAM_WRITE, 0xfe02, 64, NO_BUS);
    SentElsewhere(v, VRAM_WRITE, 0xfe02, 64);
    hide Aim, Sent, OrderDirty;
  }

  lemma StoredColour(v: Vdp)
    requires v.Valid() && !v.pending
    ensures var r := Sent(Aim(v, CRAM_WRITE, 2, NO_BUS), 1);
            r.cram[3] == 1 && r.vram == v.vram && r.reg == v.reg && OrderDirty(r) == OrderDirty(v)
  {
    SentTo(v, CRAM_WRITE, 2, 1, NO_BUS);
    SentElsewhere(v, CRAM_WRITE, 2, 1);
    hide Aim, Sent, OrderDirty;
  }

  lemma MemoryAt(v: Vdp)
    requires v.Valid()
    ensures Memory(v)[0xfe03] == v.vram[0xfe03] && Memory(v)[0x1_0003] == v.cram[3]
  {
  }

  lemma StoreKeepsPorts(setup: seq<Step>, code: nat, a: Word, w: Word)
    requires code < 0x20 && PortsOnly(setup)
    ensures PortsOnly(setup + Store(code, a, w))
  {
  }

  lemma ScreenIsOn(v: Vdp)
    requires v.Valid() && v.reg[1] == 0x40
    ensures ScreenOn(v)
  {
  }

  lemma TableStored(d: Display, setup: seq<Step>) returns (r: Display)
    requires d.Valid() && OrderDirty(d.vdp) && PortsOnly(setup) && !GoAll(d, setup).vdp.pending
    ensures r == GoAll(d, setup + Store(VRAM_WRITE, 0xfe02, 64))
    ensures var s := GoAll(d, setup);
            && r.Valid() && r.vdp.Valid() && !r.vdp.pending && r.vdp.reg == s.vdp.reg && r.vdp.cram == s.vdp.cram
            && OrderDirty(r.vdp) && r.vdp.vram[0xfe03] == 64
  {
    var store := Store(VRAM_WRITE, 0xfe02, 64);
    StoreKeepsPorts(setup, VRAM_WRITE, 0xfe02, 64);
    hide GoAll, Sent, Aim, OrderDirty, Store, PortsOnly;
    GoAllAppend(d, setup, store);
    StoreSends(GoAll(d, setup), VRAM_WRITE, 0xfe02, 64);
    StoredLink(GoAll(d, setup).vdp);
    PortsKeepDirty(d, setup + store);
    r := GoAll(d, setup + store);
  }

  /** The machine before the line is drawn. */
  lemma TableSetUp(d: Display) returns (r: Display)
    requires d.Valid() && d.vdp == PowerOn()
    ensures r == GoAll(d, SETUP + Store(VRAM_WRITE, 0xfe02, 64))
    ensures && r.Valid() && !r.vdp.pending && r.vdp.reg[5] == 0x7f && r.vdp.reg[12] == 0 && ScreenOn(r.vdp)
            && OrderDirty(r.vdp) && r.vdp.vram[0xfe03] == 64 && r.vdp.cram == PowerOn().cram
  {
    hide *;
    SetupDone(d);
    PowerOnDirty();
    SetupIsPorts();
    r := TableStored(d, SETUP);
    ScreenIsOn(r.vdp);
  }

  lemma SetupIsPorts()
    ensures PortsOnly(SETUP)
  {
  }

  lemma PowerOnDirty()
    ensures OrderDirty(PowerOn())
  {
    assert PowerOn().dirt[BASE_CHANGED / 8] == 0xff;
  }

  /** A whole run from power-on that leaves the display with an order that is out of date and not marked: sprite 0 links
      to sprite 64, whose link lies in CRAM; a line is drawn, and then that colour is changed. */
  lemma StaleOrderIsReachable(d: Display)
    requires d.Valid() && d.vdp == PowerOn()
    ensures var steps := SETUP + Store(VRAM_WRITE, 0xfe02, 64) + [Scanline(32)] + Store(CRAM_WRITE, 2, 1);
            var r := GoAll(d, steps);
            !OrderDirty(r.vdp) && r.order != OrderOf(Memory(r.vdp), r.vdp.reg[5], r.limit)
  {
    var before := SETUP + Store(VRAM_WRITE, 0xfe02, 64);
    var p := TableSetUp(d);
    LineRebuilds(p);
    var q := Go(p, Scanline(32));
    assert PowerOn().cram[3] == 0;
    hide GoAll, Go, Store, OrderOf, OrderDirty, ScreenOn, PowerOn;
    GoAllAppend(d, before, [Scanline(32)]);
    GoOne(p, Scanline(32));
    GoAllAppend(d, before + [Scanline(32)], Store(CRAM_WRITE, 2, 1));
    ColourChanged(q);
  }

  lemma ColourChanged(q: Display)
    requires q.Valid() && !q.vdp.pending && !OrderDirty(q.vdp) && q.vdp.reg[5] == 0x7f && q.limit > 1
    requires q.order == OrderOf(Memory(q.vdp), 0x7f, q.limit) && q.vdp.vram[0xfe03] == 64 && q.vdp.cram[3] == 0
    ensures var r := GoAll(q, Store(CRAM_WRITE, 2, 1));
            !OrderDirty(r.vdp) && r.order != OrderOf(Memory(r.vdp), r.vdp.reg[5], r.limit)
  {
    var mem, v := Memory(q.vdp), Sent(Aim(q.vdp, CRAM_WRITE, 2, NO_BUS), 1);
    hide GoAll, Sent, Aim, OrderDirty, OrderOf, LinkAt, Memory, Store;
    StoreSends(q, CRAM_WRITE, 2, 1);
    StoredColour(q.vdp);
    MemoryAt(q.vdp);
    MemoryAt(v);
    ThirdEntry(q.order, mem, q.limit);
    SixtyFour(Memory(v));
    OtherReadOtherOrder(q.order, 1, mem, Memory(v), 0x7f, q.limit);
  }

  lemma SixtyFour(mem: seq<Byte>)
    requires |mem| == VRAM_SIZE + CRAM_SIZE + VSRAM_SIZE
    ensures LinkAt(mem, 0x7f, 64) == mem[0x1_0003]
  {
  }
}
