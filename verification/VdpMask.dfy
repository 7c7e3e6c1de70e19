/** The third thing the renderer keeps (ras.cpp): the sprite mask, rebuilt together with the sprite order and under the
    same dirty bits. */
module VdpMask {
  import opened MachineWords
  import opened VdpMemory
  import opened VdpCaches
  import SpriteMask

  /** A display with its mask and the value that register 12 had when the mask was made. */
  datatype Screen = Screen(d: Display, mask: seq<Byte>, reg12: Byte) {
    ghost predicate Valid() { d.Valid() }
  }

  /** The entries of the order that are painted: all but the one that ended it. */
  function Painted(order: seq<int>): seq<Byte> {
    if order == [] then [] else seq(|order| - 1, i requires 0 <= i < |order| - 1 => order[i] % 0x100)
  }

  function Base(v: Vdp): nat
    requires v.Valid()
  {
    var r: int := v.reg[5];
    r * 0x200
  }

  predicate H40(reg12: Byte) { reg12 % 2 == 1 }

  predicate Interlaced(reg12: Byte) { reg12 / 2 % 2 == 1 }

  /** Not interlaced, and all attributes and tiles of the sprites inside VRAM. */
  ghost predicate Paintable(d: Display, reg12: Byte)
    requires d.Valid()
  {
    && !Interlaced(reg12) && |d.order| <= 0x100
    && SpriteMask.ListBacked(d.vdp.vram, Base(d.vdp), Painted(d.order), H40(reg12))
  }

  /** The mask is the one of the sprites in VRAM: in every cell the first sprite that shows there. */
  ghost predicate MaskRight(s: Screen)
    requires s.Valid()
  {
    Paintable(s.d, s.reg12) ==>
      SpriteMask.MaskFrom(s.mask, s.d.vdp.vram, Base(s.d.vdp), Painted(s.d.order), H40(s.reg12), 0)
  }

  /** The mask that a rebuild makes of a display: in every cell the first sprite that shows there. What it makes of a
      display that is interlaced, or whose sprites reach out of VRAM, is not modelled; it leaves `before` here. */
  ghost function MaskOf(d: Display, before: seq<Byte>): seq<Byte>
    requires d.Valid()
  {
    if Paintable(d, d.vdp.reg[12]) then
      seq(SpriteMask.AREA, c requires 0 <= c < SpriteMask.AREA =>
        SpriteMask.FrontSprite(d.vdp.vram, Base(d.vdp), Painted(d.order), H40(d.vdp.reg[12]), 0,
                               c / SpriteMask.PITCH, c % SpriteMask.PITCH))
    else before
  }

  lemma CellOf(c: int)
    requires 0 <= c < SpriteMask.AREA
    ensures var row, col := c / SpriteMask.PITCH, c % SpriteMask.PITCH;
            SpriteMask.InArea(row, col) && SpriteMask.Cell(row, col) == c
  {
  }

  lemma CellAt(row: int, col: int)
    requires SpriteMask.InArea(row, col)
    ensures var c := SpriteMask.Cell(row, col);
            0 <= c < SpriteMask.AREA && c / SpriteMask.PITCH == row && c % SpriteMask.PITCH == col
  {
    Remainder(SpriteMask.Cell(row, col), row, SpriteMask.PITCH, col);
  }

  lemma MaskOfIsRight(d: Display, before: seq<Byte>)
    requires d.Valid()
    ensures MaskRight(Screen(d, MaskOf(d, before), d.vdp.reg[12]))
  {
    hide SpriteMask.FrontSprite, SpriteMask.ListBacked, SpriteMask.Cell, SpriteMask.InArea;
    forall row, col | SpriteMask.InArea(row, col)
      ensures var c := SpriteMask.Cell(row, col);
              0 <= c < SpriteMask.AREA && c / SpriteMask.PITCH == row && c % SpriteMask.PITCH == col
    {
      CellAt(row, col);
    }
  }

  /** Makes the mask of a display. */
  method GenerateMask(mask: array<Byte>, d: Display)
    requires d.Valid() && mask.Length == SpriteMask.AREA && Paintable(d, d.vdp.reg[12])
    modifies mask
    ensures mask[..] == MaskOf(d, old(mask[..])) && MaskRight(Screen(d, mask[..], d.vdp.reg[12]))
  {
    hide SpriteMask.FrontSprite, SpriteMask.ListBacked, SpriteMask.Cell, SpriteMask.InArea, MaskRight;
    ghost var before := mask[..];
    SpriteMask.SpriteMaskGenerate(mask, d.vdp.vram, Base(d.vdp), Painted(d.order), H40(d.vdp.reg[12]));
    forall c | 0 <= c < SpriteMask.AREA ensures mask[c] == MaskOf(d, before)[c] {
      CellOf(c);
    }
    assert mask[..] == MaskOf(d, before);
    MaskOfIsRight(d, before);
  }

  function Blank(): seq<Byte> { seq(SpriteMask.AREA, _ => SpriteMask.UNCOVERED) }

  /** One step: the mask is made where the order is, under the register 12 of that moment, and cleared by a reset. */
  ghost function Move(s: Screen, step: Step): (r: Screen)
    requires s.Valid()
    ensures r.Valid() && r.d == Go(s.d, step)
  {
    var d := Go(s.d, step);
    match step
    case Port(op) => Screen(d, if op == Reset then Blank() else s.mask, s.reg12)
    case Scanline(bpp) =>
      var p := RefreshPalette(s.d, bpp);
      if ScreenOn(p.vdp) && OrderDirty(p.vdp) then Screen(d, MaskOf(d, s.mask), d.vdp.reg[12]) else s.(d := d)
  }

  /** A whole run. */
  ghost function MoveAll(s: Screen, steps: seq<Step>): (r: Screen)
    requires s.Valid()
    ensures r.Valid() && r.d == GoAll(s.d, steps)
    decreases |steps|
  {
    if steps == [] then s else MoveAll(Move(s, steps[0]), steps[1..])
  }

  /** Clear sprite bits mean that the mask is right. */
  ghost predicate MaskHonest(s: Screen)
    requires s.Valid()
  {
    !OrderDirty(s.d.vdp) ==> MaskRight(s)
  }

  lemma MaskUnchanged(s: Screen, r: Screen)
    requires s.Valid() && r.Valid() && MaskRight(s)
    requires r.mask == s.mask && r.reg12 == s.reg12 && r.d.order == s.d.order
    requires r.d.vdp.vram == s.d.vdp.vram && r.d.vdp.reg[5] == s.d.vdp.reg[5]
    ensures MaskRight(r)
  {
    hide SpriteMask.ListBacked, SpriteMask.MaskFrom;
  }

  lemma PortKeepsMask(s: Screen, op: Access)
    requires s.Valid() && MaskHonest(s)
    ensures MaskHonest(Move(s, Port(op)))
  {
    var r := Move(s, Port(op));
    if op == Reset {
      assert r.d.vdp.dirt[BASE_CHANGED / 8] == 0xff;
      hide MaskRight;
    } else {
      DoGrows(s.d.vdp, op);
      UnmarkedIsUnchanged(s.d.vdp, r.d.vdp);
      assert r.d == s.d.(vdp := Do(s.d.vdp, op));
      hide Do, Grew, OrderDirty, MaskRight;
      if !OrderDirty(r.d.vdp) { MaskUnchanged(s, r); }
    }
  }

  /** Without a rebuild a drawn line leaves the sprite bits and what they stand for alone. */
  lemma LineWithoutRebuild(d: Display, bpp: int)
    requires d.Valid()
    ensures var p := RefreshPalette(d, bpp);
            && OrderDirty(p.vdp) == OrderDirty(d.vdp) && p.vdp.vram == d.vdp.vram && p.vdp.reg == d.vdp.reg
            && p.order == d.order && (!(ScreenOn(p.vdp) && OrderDirty(p.vdp)) ==> RefreshOrder(p) == p)
  {
    SetBitIsExact(d.vdp.dirt, CRAM_CHANGED, BASE_CHANGED);
    SetBitIsExact(d.vdp.dirt, CRAM_CHANGED, VRAM_CHANGED);
    hide Bit, ClearBit, SetBit, Decode, ScreenOn, OrderOf;
  }

  lemma LineKeepsMask(s: Screen, bpp: int)
    requires s.Valid() && MaskHonest(s)
    ensures MaskHonest(Move(s, Scanline(bpp)))
  {
    LineWithoutRebuild(s.d, bpp);
    hide RefreshPalette, RefreshOrder, MaskRight, OrderDirty, ScreenOn, MaskOf;
    var p, r := RefreshPalette(s.d, bpp), Move(s, Scanline(bpp));
    if ScreenOn(p.vdp) && OrderDirty(p.vdp) {
      MaskOfIsRight(r.d, s.mask);
    } else if !OrderDirty(s.d.vdp) {
      MaskUnchanged(s, r);
    }
  }

  /** Over every run of accesses and drawn lines: clean sprite bits mean that the mask holds, in every cell, the first
      sprite of the current VRAM that shows there, under the register 12 of the last rebuild. */
  lemma {:induction false} MaskStaysHonest(s: Screen, steps: seq<Step>)
    requires s.Valid() && MaskHonest(s)
    ensures MaskHonest(MoveAll(s, steps))
    decreases |steps|
  {
    hide MaskHonest, Move, Screen.Valid;
    if steps != [] {
      match steps[0] {
        case Port(op) => PortKeepsMask(s, op);
        case Scanline(bpp) => LineKeepsMask(s, bpp);
      }
      MaskStaysHonest(Move(s, steps[0]), steps[1..]);
    }
  }
}
