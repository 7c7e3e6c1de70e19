/** The VDP as an object (md_vdp in md.h), with the state of VdpMemory and the caches of VdpCaches in its fields. Each
    method is proved equal to the function of those modules that the theorems there are about. */
module VdpChip {
  import opened MachineWords
  import opened VdpMemory
  import opened VdpCaches

  lemma NextStep(d: Display, steps: seq<Step>, i: nat)
    requires d.Valid() && i < |steps|
    ensures GoAll(d, steps[i..]) == GoAll(Go(d, steps[i]), steps[i + 1..])
  {
    hide Go, Display.Valid;
    assert steps[i..][1..] == steps[i + 1..];
  }

  lemma NoMoreSteps(d: Display, steps: seq<Step>)
    requires d.Valid()
    ensures GoAll(d, steps[|steps|..]) == d
  {
    hide Go;
  }

  lemma StepsKeep(d: Display, steps: seq<Step>)
    requires d.Valid()
    ensures Honest(d) ==> Honest(GoAll(d, steps))
    ensures PortsOnly(steps) ==> Grew(d.vdp, GoAll(d, steps).vdp)
  {
    hide *;
    if Honest(d) { CachesStayHonest(d, steps); }
    if PortsOnly(steps) { PortsGrow(d, steps); }
  }

  lemma ResetIsPowerOn(v: Vdp)
    requires v.Valid()
    ensures Do(v, Access.Reset) == PowerOn()
  {
  }

  /** What every access keeps. */
  lemma PortKeeps(d: Display, op: Access, r: Display)
    requires d.Valid() && r.Valid() && op != Access.Reset && r == d.(vdp := Do(d.vdp, op))
    ensures Grew(d.vdp, r.vdp) && (Honest(d) ==> Honest(r))
  {
    DoGrows(d.vdp, op);
    assert r == Go(d, Port(op));
    hide *;
    if Honest(d) { AccessKeepsHonest(d, op); }
  }

  lemma ScanlineKeeps(d: Display, bpp: int)
    requires d.Valid()
    ensures Honest(d) ==> Honest(Go(d, Scanline(bpp)))
  {
    hide Honest, VdpCaches.RefreshOrder, VdpCaches.RefreshPalette;
    if Honest(d) {
      PaletteKeepsHonest(d, bpp);
      OrderKeepsHonest(VdpCaches.RefreshPalette(d, bpp));
    }
  }

  lemma LinksStart(mem: seq<Byte>, reg5: Byte, limit: nat)
    ensures OrderOf(mem, reg5, limit) == [0] + Links(mem, reg5, 0, limit)
  {
  }

  /** One link more is known, and either the walk goes on from there or it is over. */
  lemma LinksStep(mem: seq<Byte>, reg5: Byte, sprite: int, room: nat, done: seq<int>)
    requires sprite >= 0 && room > 0
    ensures var next := LinkAt(mem, reg5, sprite);
            done + Links(mem, reg5, sprite, room)
            == done + [next as int] + if next == 0 || room == 1 then [] else Links(mem, reg5, next, room - 1)
  {
    hide LinkAt;
  }

  class MdVdp {
    var vram: seq<Byte>
    var cram: seq<Byte>
    var vsram: seq<Byte>
    var reg: seq<Byte>
    var dirt: seq<bv8>
    var rwMode: bv8
    var rwAddr: int
    var rwDma: bool
    var cmdPending: bool
    var highpal: seq<int>
    var spriteOrder: seq<int>
    var spriteCount: int
    ghost var depth: int
    ghost var limit: nat

    function V(): Vdp
      reads this`vram, this`cram, this`vsram, this`reg, this`dirt, this`rwMode, this`rwAddr, this`rwDma, this`cmdPending
    {
      Vdp(vram, cram, vsram, reg, dirt, rwMode, rwAddr, rwDma, cmdPending)
    }

    ghost predicate Valid()
      reads this`vram, this`cram, this`vsram, this`reg, this`dirt, this`rwMode, this`rwAddr, this`rwDma, this`cmdPending
    {
      V().Valid()
    }

    constructor ()
      ensures ValidDisplay() && V() == PowerOn()
    {
      new;
      limit := 1;
      Reset();
    }

    /** Clears everything and marks everything as changed. */
    method Reset()
      requires limit > 0
      modifies this
      ensures ValidDisplay() && V() == PowerOn() && limit == old(limit)
      ensures D() == Display(PowerOn(), seq(64, _ => 0), old(depth), [0], limit)
    {
      ResetPort();
      ResetCaches();
    }

    method ResetPort()
      modifies this`vram, this`cram, this`vsram, this`reg, this`dirt, this`rwMode, this`rwAddr, this`rwDma,
        this`cmdPending
      ensures Valid() && V() == PowerOn()
    {
      rwMode, rwAddr, rwDma, cmdPending := 0, 0, false, false;
      vram, cram, vsram := seq(VRAM_SIZE, _ => 0), seq(CRAM_SIZE, _ => 0), seq(VSRAM_SIZE, _ => 0);
      reg, dirt := seq(REGISTERS, _ => 0), seq(DIRT_SIZE, _ => 0xff);
    }

    method ResetCaches()
      modifies this`highpal, this`spriteOrder, this`spriteCount
      ensures highpal == seq(64, _ => 0) && 0 <= spriteCount < |spriteOrder| == 0x101
      ensures spriteOrder[..spriteCount + 1] == [0]
    {
      highpal, spriteOrder, spriteCount := seq(64, _ => 0), seq(0x101, _ => 0), 0;
    }

    method Mark(bit: nat, summary: nat)
      requires Valid() && bit < DIRT_BITS && summary < DIRT_BITS
      modifies this`dirt
      ensures dirt == SetBit(SetBit(old(dirt), bit), summary)
    {
      hide Or, Mask;
      dirt := dirt[bit / 8 := Or(dirt[bit / 8], Mask(bit % 8))];
      dirt := dirt[summary / 8 := Or(dirt[summary / 8], Mask(summary % 8))];
    }

    method PokeVram(addr: int, d: Byte)
      requires Valid()
      modifies this`vram, this`dirt
      ensures Valid() && V() == VdpMemory.PokeVram(old(V()), addr, d)
    {
      hide SetBit;
      var x := addr % VRAM_SIZE;
      if vram[x] != d {
        Mark(x / 256, VRAM_CHANGED);
        vram := vram[x := d];
      }
    }

    method PokeCram(addr: int, d: Byte)
      requires Valid()
      modifies this`cram, this`dirt
      ensures Valid() && V() == VdpMemory.PokeCram(old(V()), addr, d)
    {
      hide SetBit;
      var x := addr % CRAM_SIZE;
      if cram[x] != d {
        Mark(CRAM_BITS + x, CRAM_CHANGED);
        cram := cram[x := d];
      }
    }

    method PokeVsram(addr: int, d: Byte)
      requires Valid()
      modifies this`vsram, this`dirt
      ensures Valid() && V() == VdpMemory.PokeVsram(old(V()), addr, d)
    {
      hide Or, Mask;
      var x := addr % VSRAM_SIZE;
      if vsram[x] != d {
        dirt := dirt[VSRAM_CHANGED / 8 := Or(dirt[VSRAM_CHANGED / 8], Mask(VSRAM_CHANGED % 8))];
        vsram := vsram[x := d];
      }
    }

    method WriteReg(addr: nat, d: Byte)
      requires Valid() && addr < REGISTERS
      modifies this`reg, this`dirt, this`rwMode
      ensures Valid() && V() == VdpMemory.WriteReg(old(V()), addr, d)
    {
      hide SetBit;
      if reg[addr] != d {
        Mark(REG_BITS + addr, REG_CHANGED);
      }
      reg := reg[addr := d];
      rwMode := 0;
    }

    method PutWord(d: Word)
      requires Valid()
      modifies this`vram, this`cram, this`vsram, this`dirt, this`rwAddr
      ensures Valid() && V() == VdpMemory.PutWord(old(V()), d)
    {
      hide VdpMemory.PokeTwo;
      PokeTwo(d / 0x100, d % 0x100);
      rwAddr := (rwAddr + reg[15]) % 0x1_0000_0000;
    }

    method PokeTwo(first: Byte, second: Byte)
      requires Valid()
      modifies this`vram, this`cram, this`vsram, this`dirt
      ensures Valid() && V() == VdpMemory.PokeTwo(old(V()), first, second)
    {
      hide VdpMemory.PokeVram, VdpMemory.PokeCram, VdpMemory.PokeVsram;
      if rwMode == WRITE_VRAM {
        if rwAddr % 2 == 1 {
          PokeVram(rwAddr, second);
          PokeVram(rwAddr + 1, first);
        } else {
          PokeVram(rwAddr, first);
          PokeVram(rwAddr + 1, second);
        }
      } else if rwMode == WRITE_CRAM {
        PokeCram(rwAddr, first);
        PokeCram(rwAddr + 1, second);
      } else if rwMode == WRITE_VSRAM {
        PokeVsram(rwAddr, first);
        PokeVsram(rwAddr + 1, second);
      }
    }

    method PutByte(d: Byte)
      requires Valid()
      modifies this`vram, this`cram, this`vsram, this`dirt, this`rwAddr
      ensures Valid() && V() == VdpMemory.PutByte(old(V()), d)
    {
      hide VdpMemory.PokeVram, VdpMemory.PokeCram, VdpMemory.PokeVsram;
      if rwMode == WRITE_VRAM {
        PokeVram(rwAddr, d);
      } else if rwMode == WRITE_CRAM {
        PokeCram(rwAddr, d);
      } else if rwMode == WRITE_VSRAM {
        PokeVsram(rwAddr, d);
      }
      rwAddr := (rwAddr + reg[15]) % 0x1_0000_0000;
    }

    method CopyFromBus(bus: Bus, s0: nat, len: nat)
      requires Valid()
      modifies this`vram, this`cram, this`vsram, this`dirt, this`rwAddr
      ensures Valid() && V() == VdpMemory.CopyFromBus(old(V()), bus, s0, len)
    {
      hide VdpMemory.PutWord;
      var s: nat, i := s0, 0;
      while i < len
        invariant 0 <= i <= len && Valid()
        invariant VdpMemory.CopyFromBus(old(V()), bus, s0, len) == VdpMemory.CopyFromBus(V(), bus, s, len - i)
      {
        PutWord(Pair(bus.At(s), bus.At(s + 1)));
        s := s + 2;
        i := i + 1;
      }
    }

    method CopyFromVram(s0: nat, len: nat)
      requires Valid()
      modifies this`vram, this`cram, this`vsram, this`dirt, this`rwAddr
      ensures Valid() && V() == VdpMemory.CopyFromVram(old(V()), s0, len)
    {
      hide VdpMemory.PutWord;
      var s: nat, i := s0, 0;
      while i < len
        invariant 0 <= i <= len && Valid()
        invariant VdpMemory.CopyFromVram(old(V()), s0, len) == VdpMemory.CopyFromVram(V(), s, len - i)
      {
        PutWord(Pair(vram[s % VRAM_SIZE], vram[(s + 1) % VRAM_SIZE]));
        s := s + 2;
        i := i + 1;
      }
    }

    /** What a DMA command runs at once: a copy from the bus or within VRAM; a fill waits for its data. */
    method RunDma(bus: Bus)
      requires Valid()
      modifies this`vram, this`cram, this`vsram, this`dirt, this`rwAddr
      ensures Valid() && V() == VdpMemory.RunDma(old(V()), bus)
    {
      hide VdpMemory.CopyFromBus, VdpMemory.CopyFromVram, DmaSource, DmaLength;
      var mode, s, len := DmaMode(V()), DmaSource(V()), DmaLength(V());
      if mode <= 1 {
        CopyFromBus(bus, s, len);
      } else if mode == 3 {
        CopyFromVram(s, len);
      }
    }

    /** A command word, first or second half. */
    method Command(cmd: Word, bus: Bus)
      requires Valid()
      modifies this`vram, this`cram, this`vsram, this`dirt, this`rwAddr, this`rwMode, this`rwDma, this`cmdPending
      ensures Valid() && V() == VdpMemory.Command(old(V()), cmd, bus)
    {
      hide VdpMemory.RunDma, CommandFirst, CommandSecond;
      if !cmdPending {
        FirstHalfOf(cmd);
        return;
      }
      SecondHalfOf(cmd);
      if rwDma {
        RunDma(bus);
      }
    }

    method FirstHalfOf(cmd: Word)
      requires Valid()
      modifies this`rwAddr, this`rwMode, this`rwDma, this`cmdPending
      ensures Valid() && V() == CommandFirst(old(V()), cmd)
    {
      rwAddr := (rwAddr % 0x1_0000 / 0x4000 * 0x4000 + cmd % 0x4000) * 0x1_0001;
      rwMode := (cmd / 0x4000 * 4) as bv8;
      rwDma := false;
      cmdPending := true;
    }

    method SecondHalfOf(cmd: Word)
      requires Valid()
      modifies this`rwAddr, this`rwMode, this`rwDma, this`cmdPending
      ensures Valid() && V() == CommandSecond(old(V()), cmd)
    {
      rwAddr := (cmd % 4 * 0x4000 + rwAddr % 0x4000) * 0x1_0001;
      rwMode := rwMode | (cmd / 0x10 % 8 * 0x10) as bv8;
      rwDma := cmd / 0x80 % 2 == 1;
      cmdPending := false;
    }

    /** A word to the control port (mem.cpp). */
    method WriteControl(d: Word, bus: Bus)
      requires Valid()
      modifies this`vram, this`cram, this`vsram, this`reg, this`dirt, this`rwAddr, this`rwMode, this`rwDma,
        this`cmdPending
      ensures Valid() && V() == VdpMemory.WriteControl(old(V()), d, bus)
    {
      hide VdpMemory.Command, VdpMemory.WriteReg;
      if !cmdPending && d / 0x4000 == 2 {
        WriteReg(d / 0x100 % 0x20, d % 0x100);
      } else {
        Command(d, bus);
      }
    }

    method ReadWord() returns (w: Word)
      requires Valid()
      modifies this`rwAddr
      ensures Valid() && (V(), w) == VdpMemory.ReadWord(old(V()))
    {
      w := 0;
      if rwMode == READ_VRAM {
        w := Pair(vram[rwAddr % VRAM_SIZE], vram[(rwAddr + 1) % VRAM_SIZE]);
      } else if rwMode == READ_CRAM {
        w := Pair(cram[rwAddr % CRAM_SIZE], cram[(rwAddr + 1) % CRAM_SIZE]);
      } else if rwMode == READ_VSRAM {
        w := Pair(vsram[rwAddr % VSRAM_SIZE], vsram[(rwAddr + 1) % VSRAM_SIZE]);
      }
      rwAddr := (rwAddr + reg[15]) % 0x1_0000_0000;
    }

    method WriteWord(d: Word)
      requires Valid()
      modifies this`vram, this`cram, this`vsram, this`dirt, this`rwAddr
      ensures Valid() && V() == VdpMemory.WriteWord(old(V()), d)
    {
      hide VdpMemory.PutWord;
      if rwDma {
        if DmaMode(V()) == 2 {
          var len := DmaLength(V());
          var i := 0;
          while i < len
            invariant 0 <= i <= len && Valid()
            invariant FillWords(old(V()), d, len) == FillWords(V(), d, len - i)
          {
            PutWord(d);
            i := i + 1;
          }
        }
      } else {
        PutWord(d);
      }
    }

    method WriteByte(d: Byte)
      requires Valid()
      modifies this`vram, this`cram, this`vsram, this`dirt, this`rwAddr
      ensures Valid() && V() == VdpMemory.WriteByte(old(V()), d)
    {
      hide VdpMemory.PutByte;
      if rwDma {
        if DmaMode(V()) == 2 {
          var len := DmaLength(V());
          var i := 0;
          while i < len
            invariant 0 <= i <= len && Valid()
            invariant FillBytes(old(V()), d, len) == FillBytes(V(), d, len - i)
          {
            PutByte(d);
            i := i + 1;
          }
        }
      } else {
        PutByte(d);
      }
    }

    /** The palette for a depth, one entry after the other. */
    method FillPalette(bpp: int)
      requires Valid()
      modifies this`highpal
      ensures highpal == Decode(cram, bpp)
    {
      highpal := [];
      var i := 0;
      while i < 64
        invariant 0 <= i <= 64 && |highpal| == i
        invariant forall k :: 0 <= k < i ==> highpal[k] == Entry(cram, k, bpp)
      {
        hide Pixel, Red, Green, Blue;
        highpal := highpal
              + [if Deep(bpp) then Pixel(Red(cram[2 * i + 1]), Green(cram[2 * i + 1]), Blue(cram[2 * i]), bpp) else i];
        i := i + 1;
      }
    }

    /** The display of VdpCaches. */
    ghost function D(): Display
      requires ValidDisplay()
      reads this
    {
      Display(V(), highpal, depth, spriteOrder[..spriteCount + 1], limit)
    }

    ghost predicate ValidDisplay()
      reads this
    {
      Valid() && limit > 0 && 0 <= spriteCount < |spriteOrder| == 0x101
    }

    /** Appends to the sprite order. */
    method PushSprite(sprite: int)
      requires 0 <= spriteCount && spriteCount + 1 < |spriteOrder|
      modifies this`spriteOrder, this`spriteCount
      ensures spriteCount == old(spriteCount) + 1 && |spriteOrder| == old(|spriteOrder|)
      ensures spriteOrder[..spriteCount + 1] == old(spriteOrder[..spriteCount + 1]) + [sprite]
    {
      spriteCount := spriteCount + 1;
      spriteOrder := spriteOrder[spriteCount := sprite];
    }

    /** One round of the walk, `all` being the order it is to arrive at. */
    method FollowLink(mem: seq<Byte>, base: Byte, sprite: int, max: nat, ghost all: seq<int>) returns (next: int)
      requires sprite >= 0 && 0 <= spriteCount < max < |spriteOrder|
      requires all == spriteOrder[..spriteCount + 1] + Links(mem, base, sprite, max - spriteCount)
      modifies this`spriteOrder, this`spriteCount
      ensures next >= 0 && spriteCount == old(spriteCount) + 1 && |spriteOrder| == old(|spriteOrder|)
      ensures all == spriteOrder[..spriteCount + 1]
                     + if next == 0 || spriteCount == max then [] else Links(mem, base, next, max - spriteCount)
    {
      hide *;
      LinksStep(mem, base, sprite, max - spriteCount, spriteOrder[..spriteCount + 1]);
      next := LinkAt(mem, base, sprite);
      PushSprite(next);
    }

    /** Follows the links from sprite 0 until one is 0 or the list is full. */
    method WalkLinks(max: nat)
      requires Valid() && 0 < max < 0x101 == |spriteOrder|
      modifies this`spriteOrder, this`spriteCount
      ensures 0 <= spriteCount < |spriteOrder| == 0x101
      ensures spriteOrder[..spriteCount + 1] == OrderOf(Memory(V()), reg[5], max)
    {
      hide OrderOf, Memory;
      Walk(Memory(V()), reg[5], max);
    }

    method Walk(mem: seq<Byte>, base: Byte, max: nat)
      requires 0 < max < 0x101 == |spriteOrder|
      modifies this`spriteOrder, this`spriteCount
      ensures 0 <= spriteCount < |spriteOrder| == 0x101
      ensures spriteOrder[..spriteCount + 1] == OrderOf(mem, base, max)
    {
      hide *;
      ghost var all := OrderOf(mem, base, max);
      LinksStart(mem, base, max);
      var next: int := 0;
      spriteCount := 0;
      spriteOrder := spriteOrder[0 := 0];
      assert spriteOrder[..1] == [0];
      while true
        invariant 0 <= spriteCount < max && |spriteOrder| == 0x101 && next >= 0
        invariant all == spriteOrder[..spriteCount + 1] + Links(mem, base, next, max - spriteCount)
        decreases max - spriteCount
      {
        next := FollowLink(mem, base, next, max, all);
        if next == 0 || spriteCount >= max {
          break;
        }
      }
    }

    method RefreshPalette(bpp: int)
      requires ValidDisplay()
      modifies this`highpal, this`depth, this`dirt
      ensures ValidDisplay() && D() == VdpCaches.RefreshPalette(old(D()), bpp)
    {
      hide Bit, ClearBit, Decode;
      if Bit(dirt, CRAM_CHANGED) {
        FillPalette(bpp);
        depth := bpp;
        dirt := ClearBit(dirt, CRAM_CHANGED);
      }
    }

    method RefreshOrder()
      requires ValidDisplay()
      modifies this`spriteOrder, this`spriteCount, this`limit, this`dirt
      ensures ValidDisplay() && D() == VdpCaches.RefreshOrder(old(D()))
    {
      hide Bit, ClearBit, OrderOf, Memory, ScreenOn, OrderDirty;
      if ScreenOn(V()) && OrderDirty(V()) {
        var max := Limit(reg[12]);
        WalkLinks(max);
        assert OrderCleaned(V()).dirt == ClearBit(ClearBit(dirt, BASE_CHANGED), VRAM_CHANGED);
        limit := max;
        dirt := ClearBit(ClearBit(dirt, BASE_CHANGED), VRAM_CHANGED);
      }
    }

    /** The start of draw_scanline: brings the caches up to date where the dirty bits ask for it. */
    method Refresh(bpp: int)
      requires ValidDisplay()
      modifies this`highpal, this`depth, this`spriteOrder, this`spriteCount, this`limit, this`dirt
      ensures ValidDisplay() && D() == Go(old(D()), Scanline(bpp))
      ensures old(Honest(D())) ==> Honest(D())
    {
      ScanlineKeeps(D(), bpp);
      hide VdpCaches.RefreshPalette, VdpCaches.RefreshOrder, Honest;
      RefreshPalette(bpp);
      RefreshOrder();
    }

    // ------------------------------------------------------------ the ports of mem.cpp

    /** A word written to the data port, which also cancels a half-written command. */
    method DataWrite(d: Word)
      requires ValidDisplay()
      modifies this`vram, this`cram, this`vsram, this`dirt, this`rwAddr, this`cmdPending
      ensures ValidDisplay() && V() == Do(old(V()), Data(d))
      ensures Grew(old(V()), V()) && (old(Honest(D())) ==> Honest(D()))
    {
      ghost var before := D();
      hide VdpMemory.WriteWord, Grew, Honest;
      WriteWord(d);
      cmdPending := false;
      PortKeeps(before, Data(d), D());
    }

    /** A word read from the data port, likewise. */
    method DataRead() returns (w: Word)
      requires ValidDisplay()
      modifies this`rwAddr, this`cmdPending
      ensures ValidDisplay() && V() == Do(old(V()), Read) && w == VdpMemory.ReadWord(old(V())).1
      ensures Grew(old(V()), V()) && (old(Honest(D())) ==> Honest(D()))
    {
      ghost var before := D();
      hide Next, Grew, Honest;
      w := ReadWord();
      cmdPending := false;
      PortKeeps(before, Read, D());
    }

    /** A word written to the control port. */
    method ControlWrite(d: Word, bus: Bus)
      requires ValidDisplay()
      modifies this`vram, this`cram, this`vsram, this`reg, this`dirt, this`rwAddr, this`rwMode, this`rwDma,
        this`cmdPending
      ensures ValidDisplay() && V() == Do(old(V()), Control(d, bus))
      ensures Grew(old(V()), V()) && (old(Honest(D())) ==> Honest(D()))
    {
      ghost var before := D();
      hide VdpMemory.WriteControl, Grew, Honest;
      WriteControl(d, bus);
      PortKeeps(before, Control(d, bus), D());
    }

    /** A byte for the data port; nothing in the source sends one. */
    method ByteWrite(b: Byte)
      requires ValidDisplay()
      modifies this`vram, this`cram, this`vsram, this`dirt, this`rwAddr
      ensures ValidDisplay() && V() == Do(old(V()), DataByte(b))
      ensures Grew(old(V()), V()) && (old(Honest(D())) ==> Honest(D()))
    {
      ghost var before := D();
      hide VdpMemory.WriteByte, Grew, Honest;
      WriteByte(b);
      PortKeeps(before, DataByte(b), D());
    }

    method Take(op: Access)
      requires ValidDisplay()
      modifies this
      ensures ValidDisplay() && D() == Go(old(D()), Port(op))
    {
      hide Do, PowerOn;
      match op {
        case Data(d) => DataWrite(d);
        case DataByte(b) => ByteWrite(b);
        case Control(cmd, bus) => ControlWrite(cmd, bus);
        case Read => var w := DataRead();
        case Reset =>
          ResetIsPowerOn(V());
          Reset();
      }
    }

    method TakeStep(step: Step)
      requires ValidDisplay()
      modifies this
      ensures ValidDisplay() && D() == Go(old(D()), step)
    {
      hide Go;
      match step {
        case Port(op) => Take(op);
        case Scanline(bpp) => Refresh(bpp);
      }
    }

    /** A whole run of accesses and drawn lines on the object. The caches stay honest, and with no line drawn in between
        whatever changed has been marked. */
    method RunSteps(steps: seq<Step>)
      requires ValidDisplay()
      modifies this
      ensures ValidDisplay() && D() == GoAll(old(D()), steps)
      ensures old(Honest(D())) ==> Honest(D())
      ensures PortsOnly(steps) ==> Grew(old(V()), V())
    {
      ghost var start, d := D(), D();
      var i := 0;
      assert steps[0..] == steps;
      hide *;
      while i < |steps|
        invariant 0 <= i <= |steps| && ValidDisplay() && D() == d && d.Valid()
        invariant GoAll(start, steps) == GoAll(d, steps[i..])
      {
        NextStep(d, steps, i);
        TakeStep(steps[i]);
        d := Go(d, steps[i]);
        i := i + 1;
      }
      NoMoreSteps(d, steps);
      StepsKeep(start, steps);
    }
  }
}
