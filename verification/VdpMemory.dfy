/** The video memory and its dirty bits (vdp.cpp, and the VDP ports of mem.cpp).

    Every write goes through a poke that compares, stores and marks: one bit per 256-byte page of VRAM, per byte of
    CRAM and per register, and one summary bit for each kind. `Grew` is what any run of port accesses keeps. */
module VdpMemory {
  import opened MachineWords

  const VRAM_SIZE := 0x1_0000
  const CRAM_SIZE := 0x80
  const VSRAM_SIZE := 0x80
  const REGISTERS := 0x20
  const DIRT_SIZE := 0x35
  const DIRT_BITS := 0x35 * 8

  /** Where the bits of each kind start; a VRAM page is numbered by its own bit. */
  const CRAM_BITS := 0x20 * 8
  const REG_BITS := 0x30 * 8
  const VRAM_CHANGED := 0x34 * 8
  const CRAM_CHANGED := 0x34 * 8 + 1
  const VSRAM_CHANGED := 0x34 * 8 + 2
  const REG_CHANGED := 0x34 * 8 + 3

  const WRITE_VRAM: bv8 := 0x04
  const WRITE_CRAM: bv8 := 0x0c
  const WRITE_VSRAM: bv8 := 0x14
  const READ_VRAM: bv8 := 0x00
  const READ_CRAM: bv8 := 0x20
  const READ_VSRAM: bv8 := 0x10

  // ------------------------------------------------------------------------ dirty bits

  function Mask(k: int): bv8 {
    if k == 0 then 1 else if k == 1 then 2 else if k == 2 then 4 else if k == 3 then 8
    else if k == 4 then 16 else if k == 5 then 32 else if k == 6 then 64 else 128
  }

  predicate Meets(x: bv8, m: bv8) { x & m != 0 }

  function Or(x: bv8, m: bv8): bv8 { x | m }

  function AndNot(x: bv8, m: bv8): bv8 { x & !m }

  lemma SameMask(x: bv8, m: bv8)
    requires m != 0
    ensures Meets(Or(x, m), m) && !Meets(AndNot(x, m), m)
  {
  }

  lemma OtherMask(x: bv8, m: bv8, n: bv8)
    requires m & n == 0
    ensures Meets(Or(x, m), n) == Meets(x, n) == Meets(AndNot(x, m), n)
  {
  }

  lemma MasksMeet(i: int, j: int)
    requires 0 <= i < 8 && 0 <= j < 8
    ensures Mask(i) != 0 && (i != j ==> Mask(i) & Mask(j) == 0)
  {
  }

  lemma MaskBits(x: bv8, i: int, j: int)
    requires 0 <= i < 8 && 0 <= j < 8
    ensures Meets(Or(x, Mask(i)), Mask(j)) <==> i == j || Meets(x, Mask(j))
    ensures Meets(AndNot(x, Mask(i)), Mask(j)) <==> i != j && Meets(x, Mask(j))
  {
    hide *;
    MasksMeet(i, j);
    if i == j { SameMask(x, Mask(i)); } else { OtherMask(x, Mask(i), Mask(j)); }
  }

  predicate Bit(dirt: seq<bv8>, i: nat)
    requires |dirt| == DIRT_SIZE && i < DIRT_BITS
  {
    Meets(dirt[i / 8], Mask(i % 8))
  }

  function SetBit(dirt: seq<bv8>, i: nat): (r: seq<bv8>)
    requires |dirt| == DIRT_SIZE && i < DIRT_BITS
    ensures |r| == DIRT_SIZE
  {
    dirt[i / 8 := Or(dirt[i / 8], Mask(i % 8))]
  }

  function ClearBit(dirt: seq<bv8>, i: nat): (r: seq<bv8>)
    requires |dirt| == DIRT_SIZE && i < DIRT_BITS
    ensures |r| == DIRT_SIZE
  {
    dirt[i / 8 := AndNot(dirt[i / 8], Mask(i % 8))]
  }

  lemma SetBitIsExact(dirt: seq<bv8>, i: nat, j: nat)
    requires |dirt| == DIRT_SIZE && i < DIRT_BITS && j < DIRT_BITS
    ensures Bit(SetBit(dirt, i), j) <==> i == j || Bit(dirt, j)
    ensures Bit(ClearBit(dirt, i), j) <==> i != j && Bit(dirt, j)
  {
    hide Meets, Or, AndNot, Mask;
    if i / 8 == j / 8 {
      MaskBits(dirt[i / 8], i % 8, j % 8);
    }
  }

  // ------------------------------------------------------------------------------ state

  datatype Vdp = Vdp(vram: seq<Byte>, cram: seq<Byte>, vsram: seq<Byte>, reg: seq<Byte>, dirt: seq<bv8>,
                     mode: bv8, addr: int, dma: bool, pending: bool)
  {
    ghost predicate Valid() {
      && |vram| == VRAM_SIZE && |cram| == CRAM_SIZE && |vsram| == VSRAM_SIZE && |reg| == REGISTERS
      && |dirt| == DIRT_SIZE && 0 <= addr < 0x1_0000_0000
    }
  }

  /** Each byte that differs from an earlier state has its own bit and the summary bit of its kind set, and no bit
      that was set then has been lost. */
  ghost predicate Grew(a: Vdp, b: Vdp)
    requires a.Valid() && b.Valid()
  {
    && (forall i :: 0 <= i < DIRT_BITS && Bit(a.dirt, i) ==> Bit(b.dirt, i))
    && (forall x :: 0 <= x < VRAM_SIZE && a.vram[x] != b.vram[x] ==> Bit(b.dirt, x / 256) && Bit(b.dirt, VRAM_CHANGED))
    && (forall x :: 0 <= x < CRAM_SIZE && a.cram[x] != b.cram[x] ==>
              Bit(b.dirt, CRAM_BITS + x) && Bit(b.dirt, CRAM_CHANGED))
    && (forall x :: 0 <= x < VSRAM_SIZE && a.vsram[x] != b.vsram[x] ==> Bit(b.dirt, VSRAM_CHANGED))
    && (forall x :: 0 <= x < REGISTERS && a.reg[x] != b.reg[x] ==>
              Bit(b.dirt, REG_BITS + x) && Bit(b.dirt, REG_CHANGED))
  }

  lemma GrewTransitive(a: Vdp, b: Vdp, c: Vdp)
    requires a.Valid() && b.Valid() && c.Valid() && Grew(a, b) && Grew(b, c)
    ensures Grew(a, c)
  {
    hide Bit;
  }

  lemma GrewReflexive(a: Vdp, b: Vdp)
    requires a.Valid() && b.Valid()
    requires (a.vram, a.cram, a.vsram, a.reg, a.dirt) == (b.vram, b.cram, b.vsram, b.reg, b.dirt)
    ensures Grew(a, b)
  {
    hide Bit;
  }

  // ------------------------------------------------------------------------------ pokes

  function PokeVram(v: Vdp, addr: int, d: Byte): (r: Vdp)
    requires v.Valid()
    ensures r.Valid()
  {
    var x := addr % VRAM_SIZE;
    if v.vram[x] == d then v
    else v.(vram := v.vram[x := d], dirt := SetBit(SetBit(v.dirt, x / 256), VRAM_CHANGED))
  }

  function PokeCram(v: Vdp, addr: int, d: Byte): (r: Vdp)
    requires v.Valid()
    ensures r.Valid()
  {
    var x := addr % CRAM_SIZE;
    if v.cram[x] == d then v
    else v.(cram := v.cram[x := d], dirt := SetBit(SetBit(v.dirt, CRAM_BITS + x), CRAM_CHANGED))
  }

  function PokeVsram(v: Vdp, addr: int, d: Byte): (r: Vdp)
    requires v.Valid()
    ensures r.Valid()
  {
    var x := addr % VSRAM_SIZE;
    if v.vsram[x] == d then v
    else v.(vsram := v.vsram[x := d], dirt := SetBit(v.dirt, VSRAM_CHANGED))
  }

  function WriteReg(v: Vdp, addr: nat, d: Byte): (r: Vdp)
    requires v.Valid() && addr < REGISTERS
    ensures r.Valid()
  {
    var dirt := if v.reg[addr] == d then v.dirt else SetBit(SetBit(v.dirt, REG_BITS + addr), REG_CHANGED);
    v.(reg := v.reg[addr := d], dirt := dirt, mode := 0)
  }

  /** Both bits of a poke, exactly. */
  lemma TwoBits(dirt: seq<bv8>, i: nat, k: nat, j: nat)
    requires |dirt| == DIRT_SIZE && i < DIRT_BITS && j < DIRT_BITS && k < DIRT_BITS
    ensures Bit(SetBit(SetBit(dirt, i), k), j) <==> i == j || k == j || Bit(dirt, j)
  {
    SetBitIsExact(dirt, i, j);
    SetBitIsExact(SetBit(dirt, i), k, j);
    hide Bit, SetBit;
  }

  /** A poke stores its byte and marks it, and changes no other byte and no other bit. */
  lemma PokeVramExactly(v: Vdp, addr: int, d: Byte, j: nat)
    requires v.Valid() && j < DIRT_BITS
    ensures var r, x := PokeVram(v, addr, d), addr % VRAM_SIZE;
            && r == v.(vram := v.vram[x := d], dirt := r.dirt)
            && (Bit(r.dirt, j) <==> Bit(v.dirt, j) || (v.vram[x] != d && (j == x / 256 || j == VRAM_CHANGED)))
  {
    var x := addr % VRAM_SIZE;
    TwoBits(v.dirt, x / 256, VRAM_CHANGED, j);
    assert v.vram[x := v.vram[x]] == v.vram;
    hide Bit, SetBit;
  }

  lemma PokeCramExactly(v: Vdp, addr: int, d: Byte, j: nat)
    requires v.Valid() && j < DIRT_BITS
    ensures var r, x := PokeCram(v, addr, d), addr % CRAM_SIZE;
            && r == v.(cram := v.cram[x := d], dirt := r.dirt)
            && (Bit(r.dirt, j) <==> Bit(v.dirt, j) || (v.cram[x] != d && (j == CRAM_BITS + x || j == CRAM_CHANGED)))
  {
    var x := addr % CRAM_SIZE;
    TwoBits(v.dirt, CRAM_BITS + x, CRAM_CHANGED, j);
    assert v.cram[x := v.cram[x]] == v.cram;
    hide Bit, SetBit;
  }

  lemma PokeVsramExactly(v: Vdp, addr: int, d: Byte, j: nat)
    requires v.Valid() && j < DIRT_BITS
    ensures var r, x := PokeVsram(v, addr, d), addr % VSRAM_SIZE;
            && r == v.(vsram := v.vsram[x := d], dirt := r.dirt)
            && (Bit(r.dirt, j) <==> Bit(v.dirt, j) || (v.vsram[x] != d && j == VSRAM_CHANGED))
  {
    var x := addr % VSRAM_SIZE;
    SetBitIsExact(v.dirt, VSRAM_CHANGED, j);
    assert v.vsram[x := v.vsram[x]] == v.vsram;
    hide Bit, SetBit;
  }

  lemma WriteRegExactly(v: Vdp, addr: nat, d: Byte, j: nat)
    requires v.Valid() && addr < REGISTERS && j < DIRT_BITS
    ensures var r := WriteReg(v, addr, d);
            && r == v.(reg := v.reg[addr := d], dirt := r.dirt, mode := READ_VRAM)
            && (Bit(r.dirt, j) <==> Bit(v.dirt, j) || (v.reg[addr] != d && (j == REG_BITS + addr || j == REG_CHANGED)))
  {
    TwoBits(v.dirt, REG_BITS + addr, REG_CHANGED, j);
    hide Bit, SetBit;
  }

  lemma PokeVramGrows(v: Vdp, addr: int, d: Byte)
    requires v.Valid()
    ensures Grew(v, PokeVram(v, addr, d))
  {
    forall j: nat | j < DIRT_BITS
      ensures Bit(PokeVram(v, addr, d).dirt, j) <==>
              Bit(v.dirt, j) || (v.vram[addr % VRAM_SIZE] != d && (j == addr % VRAM_SIZE / 256 || j == VRAM_CHANGED))
    {
      PokeVramExactly(v, addr, d, j);
    }
    PokeVramExactly(v, addr, d, 0);
    hide Bit, SetBit, PokeVram;
  }

  lemma PokeCramGrows(v: Vdp, addr: int, d: Byte)
    requires v.Valid()
    ensures Grew(v, PokeCram(v, addr, d))
  {
    forall j: nat | j < DIRT_BITS
      ensures Bit(PokeCram(v, addr, d).dirt, j) <==>
              || Bit(v.dirt, j)
              || (v.cram[addr % CRAM_SIZE] != d && (j == CRAM_BITS + addr % CRAM_SIZE || j == CRAM_CHANGED))
    {
      PokeCramExactly(v, addr, d, j);
    }
    PokeCramExactly(v, addr, d, 0);
    hide Bit, SetBit, PokeCram;
  }

  lemma PokeVsramGrows(v: Vdp, addr: int, d: Byte)
    requires v.Valid()
    ensures Grew(v, PokeVsram(v, addr, d))
  {
    forall j: nat | j < DIRT_BITS
      ensures Bit(PokeVsram(v, addr, d).dirt, j) <==>
              Bit(v.dirt, j) || (v.vsram[addr % VSRAM_SIZE] != d && j == VSRAM_CHANGED)
    {
      PokeVsramExactly(v, addr, d, j);
    }
    PokeVsramExactly(v, addr, d, 0);
    hide Bit, SetBit, PokeVsram;
  }

  lemma WriteRegGrows(v: Vdp, addr: nat, d: Byte)
    requires v.Valid() && addr < REGISTERS
    ensures Grew(v, WriteReg(v, addr, d))
  {
    forall j: nat | j < DIRT_BITS
      ensures Bit(WriteReg(v, addr, d).dirt, j) <==>
              Bit(v.dirt, j) || (v.reg[addr] != d && (j == REG_BITS + addr || j == REG_CHANGED))
    {
      WriteRegExactly(v, addr, d, j);
    }
    WriteRegExactly(v, addr, d, 0);
    hide Bit, SetBit, WriteReg;
  }

  // ------------------------------------------------------------------------- data port

  /** Two bytes as a word, the first one on top. */
  function Pair(hi: Byte, lo: Byte): (w: Word)
    ensures w / 0x100 == hi && w % 0x100 == lo
  {
    var h: int := hi;
    h * 0x100 + lo
  }

  /** The target of a write, by the code register; any other code writes nowhere. */
  function PokeTwo(v: Vdp, first: Byte, second: Byte): (r: Vdp)
    requires v.Valid()
    ensures r.Valid()
  {
    if v.mode == WRITE_VRAM then
      if v.addr % 2 == 1 then PokeVram(PokeVram(v, v.addr, second), v.addr + 1, first)
      else PokeVram(PokeVram(v, v.addr, first), v.addr + 1, second)
    else if v.mode == WRITE_CRAM then PokeCram(PokeCram(v, v.addr, first), v.addr + 1, second)
    else if v.mode == WRITE_VSRAM then PokeVsram(PokeVsram(v, v.addr, first), v.addr + 1, second)
    else v
  }

  function Next(v: Vdp): (r: Vdp)
    requires v.Valid()
    ensures r.Valid()
  {
    v.(addr := (v.addr + v.reg[15]) % 0x1_0000_0000)
  }

  function PutWord(v: Vdp, d: Word): (r: Vdp)
    requires v.Valid()
    ensures r.Valid()
  {
    Next(PokeTwo(v, d / 0x100, d % 0x100))
  }

  function PokeOne(v: Vdp, d: Byte): (r: Vdp)
    requires v.Valid()
    ensures r.Valid()
  {
    if v.mode == WRITE_VRAM then PokeVram(v, v.addr, d)
    else if v.mode == WRITE_CRAM then PokeCram(v, v.addr, d)
    else if v.mode == WRITE_VSRAM then PokeVsram(v, v.addr, d)
    else v
  }

  function PutByte(v: Vdp, d: Byte): (r: Vdp)
    requires v.Valid()
    ensures r.Valid()
  {
    Next(PokeOne(v, d))
  }

  /** A straight read, and the step of the address after it. */
  function ReadWord(v: Vdp): (r: (Vdp, Word))
    requires v.Valid()
    ensures r.0.Valid()
  {
    var a := v.addr;
    (Next(v),
     if v.mode == READ_VRAM then Pair(v.vram[a % VRAM_SIZE], v.vram[(a + 1) % VRAM_SIZE])
     else if v.mode == READ_CRAM then Pair(v.cram[a % CRAM_SIZE], v.cram[(a + 1) % CRAM_SIZE])
     else if v.mode == READ_VSRAM then Pair(v.vsram[a % VSRAM_SIZE], v.vsram[(a + 1) % VSRAM_SIZE])
     else 0)
  }

  lemma NextGrows(v: Vdp)
    requires v.Valid()
    ensures Grew(v, Next(v))
  {
    GrewReflexive(v, Next(v));
    hide Grew;
  }

  lemma PokeVramTwiceGrows(v: Vdp, a: int, x: Byte, b: int, y: Byte)
    requires v.Valid()
    ensures Grew(v, PokeVram(PokeVram(v, a, x), b, y))
  {
    hide Grew, PokeVram, Vdp.Valid;
    PokeVramGrows(v, a, x);
    PokeVramGrows(PokeVram(v, a, x), b, y);
    GrewTransitive(v, PokeVram(v, a, x), PokeVram(PokeVram(v, a, x), b, y));
  }

  lemma PokeCramTwiceGrows(v: Vdp, a: int, x: Byte, b: int, y: Byte)
    requires v.Valid()
    ensures Grew(v, PokeCram(PokeCram(v, a, x), b, y))
  {
    hide Grew, PokeCram, Vdp.Valid;
    PokeCramGrows(v, a, x);
    PokeCramGrows(PokeCram(v, a, x), b, y);
    GrewTransitive(v, PokeCram(v, a, x), PokeCram(PokeCram(v, a, x), b, y));
  }

  lemma PokeVsramTwiceGrows(v: Vdp, a: int, x: Byte, b: int, y: Byte)
    requires v.Valid()
    ensures Grew(v, PokeVsram(PokeVsram(v, a, x), b, y))
  {
    hide Grew, PokeVsram, Vdp.Valid;
    PokeVsramGrows(v, a, x);
    PokeVsramGrows(PokeVsram(v, a, x), b, y);
    GrewTransitive(v, PokeVsram(v, a, x), PokeVsram(PokeVsram(v, a, x), b, y));
  }

  lemma PokeTwoGrows(v: Vdp, first: Byte, second: Byte)
    requires v.Valid()
    ensures Grew(v, PokeTwo(v, first, second))
  {
    hide Grew, PokeVram, PokeCram, PokeVsram, Vdp.Valid;
    if v.mode == WRITE_VRAM {
      if v.addr % 2 == 1 {
        PokeVramTwiceGrows(v, v.addr, second, v.addr + 1, first);
      } else {
        PokeVramTwiceGrows(v, v.addr, first, v.addr + 1, second);
      }
    } else if v.mode == WRITE_CRAM {
      PokeCramTwiceGrows(v, v.addr, first, v.addr + 1, second);
    } else if v.mode == WRITE_VSRAM {
      PokeVsramTwiceGrows(v, v.addr, first, v.addr + 1, second);
    } else {
      GrewReflexive(v, v);
    }
  }

  lemma PutWordGrows(v: Vdp, d: Word)
    requires v.Valid()
    ensures Grew(v, PutWord(v, d))
  {
    var p := PokeTwo(v, d / 0x100, d % 0x100);
    hide Grew, PokeTwo, Next, Vdp.Valid;
    PokeTwoGrows(v, d / 0x100, d % 0x100);
    NextGrows(p);
    GrewTransitive(v, p, Next(p));
  }

  lemma PutByteGrows(v: Vdp, d: Byte)
    requires v.Valid()
    ensures Grew(v, PutByte(v, d))
  {
    GrewReflexive(v, v);
    PokeVramGrows(v, v.addr, d);
    PokeCramGrows(v, v.addr, d);
    PokeVsramGrows(v, v.addr, d);
    hide Grew, PokeVram, PokeCram, PokeVsram, Next, Vdp.Valid;
    NextGrows(PokeOne(v, d));
    GrewTransitive(v, PokeOne(v, d), PutByte(v, d));
  }

  // ------------------------------------------------------------------------------- DMA

  /** What the 68000 side returns to DMA reads: memory up to some address, and one value above it. */
  datatype Bus = Bus(bytes: seq<Byte>, open: Byte) {
    function At(a: int): Byte {
      var x := a % 0x100_0000;
      if x < |bytes| then bytes[x] else open
    }
  }

  function DmaLength(v: Vdp): nat
    requires v.Valid()
  {
    Pair(v.reg[0x14], v.reg[0x13])
  }

  function DmaSource(v: Vdp): nat
    requires v.Valid()
  {
    var high: int := v.reg[0x17] % 0x80;
    high * 0x2_0000 + Pair(v.reg[0x16], v.reg[0x15]) * 2
  }

  function DmaMode(v: Vdp): int
    requires v.Valid()
  {
    var r: int := v.reg[0x17];
    r / 0x40
  }

  /** n words from the bus, starting at s. */
  function CopyFromBus(v: Vdp, bus: Bus, s: nat, n: nat): (r: Vdp)
    requires v.Valid()
    ensures r.Valid()
    decreases n
  {
    if n == 0 then v else CopyFromBus(PutWord(v, Pair(bus.At(s), bus.At(s + 1))), bus, s + 2, n - 1)
  }

  /** n words out of VRAM itself, each read when its turn comes. */
  function CopyFromVram(v: Vdp, s: nat, n: nat): (r: Vdp)
    requires v.Valid()
    ensures r.Valid()
    decreases n
  {
    if n == 0 then v
    else CopyFromVram(PutWord(v, Pair(v.vram[s % VRAM_SIZE], v.vram[(s + 1) % VRAM_SIZE])), s + 2, n - 1)
  }

  function FillWords(v: Vdp, d: Word, n: nat): (r: Vdp)
    requires v.Valid()
    ensures r.Valid()
    decreases n
  {
    if n == 0 then v else FillWords(PutWord(v, d), d, n - 1)
  }

  function FillBytes(v: Vdp, d: Byte, n: nat): (r: Vdp)
    requires v.Valid()
    ensures r.Valid()
    decreases n
  {
    if n == 0 then v else FillBytes(PutByte(v, d), d, n - 1)
  }

  function RunDma(v: Vdp, bus: Bus): (r: Vdp)
    requires v.Valid()
    ensures r.Valid()
  {
    if DmaMode(v) <= 1 then CopyFromBus(v, bus, DmaSource(v), DmaLength(v))
    else if DmaMode(v) == 3 then CopyFromVram(v, DmaSource(v), DmaLength(v))
    else v
  }

  lemma {:induction false} CopyFromBusGrows(v: Vdp, bus: Bus, s: nat, n: nat)
    requires v.Valid()
    ensures Grew(v, CopyFromBus(v, bus, s, n))
    decreases n
  {
    hide Grew, PutWord, Vdp.Valid, Bus.At;
    if n == 0 {
      GrewReflexive(v, v);
    } else {
      var w := Pair(bus.At(s), bus.At(s + 1));
      PutWordGrows(v, w);
      CopyFromBusGrows(PutWord(v, w), bus, s + 2, n - 1);
      GrewTransitive(v, PutWord(v, w), CopyFromBus(v, bus, s, n));
    }
  }

  lemma {:induction false} CopyFromVramGrows(v: Vdp, s: nat, n: nat)
    requires v.Valid()
    ensures Grew(v, CopyFromVram(v, s, n))
    decreases n
  {
    hide Grew, PutWord;
    if n == 0 {
      GrewReflexive(v, v);
    } else {
      var w := Pair(v.vram[s % VRAM_SIZE], v.vram[(s + 1) % VRAM_SIZE]);
      PutWordGrows(v, w);
      CopyFromVramGrows(PutWord(v, w), s + 2, n - 1);
      GrewTransitive(v, PutWord(v, w), CopyFromVram(v, s, n));
    }
  }

  lemma {:induction false} FillWordsGrows(v: Vdp, d: Word, n: nat)
    requires v.Valid()
    ensures Grew(v, FillWords(v, d, n))
    decreases n
  {
    hide Grew, PutWord, Vdp.Valid;
    if n == 0 {
      GrewReflexive(v, v);
    } else {
      PutWordGrows(v, d);
      FillWordsGrows(PutWord(v, d), d, n - 1);
      GrewTransitive(v, PutWord(v, d), FillWords(v, d, n));
    }
  }

  lemma {:induction false} FillBytesGrows(v: Vdp, d: Byte, n: nat)
    requires v.Valid()
    ensures Grew(v, FillBytes(v, d, n))
    decreases n
  {
    hide Grew, PutByte, Vdp.Valid;
    if n == 0 {
      GrewReflexive(v, v);
    } else {
      PutByteGrows(v, d);
      FillBytesGrows(PutByte(v, d), d, n - 1);
      GrewTransitive(v, PutByte(v, d), FillBytes(v, d, n));
    }
  }

  // ---------------------------------------------------------------------- control port

  /** The first half of a command; the address is mirrored into the upper half of its register. */
  function CommandFirst(v: Vdp, cmd: Word): (r: Vdp)
    requires v.Valid()
    ensures r.Valid()
  {
    var low := v.addr % 0x1_0000 / 0x4000 * 0x4000 + cmd % 0x4000;
    v.(addr := low * 0x1_0001, mode := (cmd / 0x4000 * 4) as bv8, dma := false, pending := true)
  }

  function CommandSecond(v: Vdp, cmd: Word): (r: Vdp)
    requires v.Valid()
    ensures r.Valid()
  {
    var low := cmd % 4 * 0x4000 + v.addr % 0x4000;
    v.(addr := low * 0x1_0001, mode := v.mode | (cmd / 0x10 % 8 * 0x10) as bv8,
       dma := cmd / 0x80 % 2 == 1, pending := false)
  }

  function Command(v: Vdp, cmd: Word, bus: Bus): (r: Vdp)
    requires v.Valid()
    ensures r.Valid()
  {
    if !v.pending then CommandFirst(v, cmd)
    else
      var c := CommandSecond(v, cmd);
      if c.dma then RunDma(c, bus) else c
  }

  /** A write to the data port: one word, or a fill when a fill is what was asked for. */
  function WriteWord(v: Vdp, d: Word): (r: Vdp)
    requires v.Valid()
    ensures r.Valid()
  {
    if !v.dma then PutWord(v, d) else if DmaMode(v) == 2 then FillWords(v, d, DmaLength(v)) else v
  }

  function WriteByte(v: Vdp, d: Byte): (r: Vdp)
    requires v.Valid()
    ensures r.Valid()
  {
    if !v.dma then PutByte(v, d) else if DmaMode(v) == 2 then FillBytes(v, d, DmaLength(v)) else v
  }

  /** A write to the control port: the second half of a command, a register, or the first half of a command. */
  function WriteControl(v: Vdp, d: Word, bus: Bus): (r: Vdp)
    requires v.Valid()
    ensures r.Valid()
  {
    if !v.pending && d / 0x4000 == 2 then WriteReg(v, d / 0x100 % 0x20, d % 0x100) else Command(v, d, bus)
  }

  /** Everything that reaches the VDP from the 68000. */
  datatype Access = Data(d: Word) | DataByte(b: Byte) | Control(cmd: Word, bus: Bus) | Read | Reset

  function PowerOn(): (r: Vdp)
    ensures r.Valid()
  {
    Vdp(seq(VRAM_SIZE, _ => 0), seq(CRAM_SIZE, _ => 0), seq(VSRAM_SIZE, _ => 0), seq(REGISTERS, _ => 0),
        seq(DIRT_SIZE, _ => 0xff), 0, 0, false, false)
  }

  function Do(v: Vdp, op: Access): (r: Vdp)
    requires v.Valid()
    ensures r.Valid()
  {
    match op
    case Data(d) => WriteWord(v, d).(pending := false)
    case DataByte(b) => WriteByte(v, b)
    case Control(cmd, bus) => WriteControl(v, cmd, bus)
    case Read => ReadWord(v).0.(pending := false)
    case Reset => PowerOn()
  }

  function Run(v: Vdp, ops: seq<Access>): (r: Vdp)
    requires v.Valid()
    ensures r.Valid()
    decreases |ops|
  {
    if ops == [] then v else Run(Do(v, ops[0]), ops[1..])
  }

  lemma RunDmaGrows(v: Vdp, bus: Bus)
    requires v.Valid()
    ensures Grew(v, RunDma(v, bus))
  {
    hide Grew, CopyFromBus, CopyFromVram, DmaSource, DmaLength, DmaMode, Vdp.Valid;
    CopyFromBusGrows(v, bus, DmaSource(v), DmaLength(v));
    CopyFromVramGrows(v, DmaSource(v), DmaLength(v));
    GrewReflexive(v, v);
  }

  lemma CommandGrows(v: Vdp, cmd: Word, bus: Bus)
    requires v.Valid()
    ensures Grew(v, Command(v, cmd, bus))
  {
    GrewReflexive(v, CommandFirst(v, cmd));
    GrewReflexive(v, CommandSecond(v, cmd));
    hide Grew, RunDma, CommandFirst, CommandSecond, Vdp.Valid;
    RunDmaGrows(CommandSecond(v, cmd), bus);
    GrewTransitive(v, CommandSecond(v, cmd), RunDma(CommandSecond(v, cmd), bus));
  }

  lemma WriteWordGrows(v: Vdp, d: Word)
    requires v.Valid()
    ensures Grew(v, WriteWord(v, d))
  {
    PutWordGrows(v, d);
    FillWordsGrows(v, d, DmaLength(v));
    GrewReflexive(v, v);
    hide Grew, PutWord, FillWords, DmaLength, DmaMode;
  }

  lemma WriteByteGrows(v: Vdp, d: Byte)
    requires v.Valid()
    ensures Grew(v, WriteByte(v, d))
  {
    PutByteGrows(v, d);
    FillBytesGrows(v, d, DmaLength(v));
    GrewReflexive(v, v);
    hide Grew, PutByte, FillBytes, DmaLength, DmaMode;
  }

  lemma ResetGrows(v: Vdp)
    requires v.Valid()
    ensures Grew(v, PowerOn())
  {
    var dirt := PowerOn().dirt;
    forall i: nat | i < DIRT_BITS ensures Bit(dirt, i) {
      assert dirt[i / 8] == 0xff;
    }
    hide Bit;
  }

  lemma DoGrows(v: Vdp, op: Access)
    requires v.Valid()
    ensures Grew(v, Do(v, op))
  {
    match op {
      case Data(d) =>
        WriteWordGrows(v, d);
        WithoutPending(v, WriteWord(v, d));
      case DataByte(b) =>
        WriteByteGrows(v, b);
      case Control(cmd, bus) =>
        CommandGrows(v, cmd, bus);
        WriteRegGrows(v, cmd / 0x100 % 0x20, cmd % 0x100);
      case Read =>
        NextGrows(v);
        WithoutPending(v, Next(v));
      case Reset =>
        ResetGrows(v);
    }
    hide Grew, WriteWord, WriteByte, Command, WriteReg, Next, PowerOn, Vdp.Valid;
  }

  lemma WithoutPending(a: Vdp, b: Vdp)
    requires a.Valid() && b.Valid() && Grew(a, b)
    ensures Grew(a, b.(pending := false))
  {
    GrewReflexive(b, b.(pending := false));
    hide Grew;
    GrewTransitive(a, b, b.(pending := false));
  }

  /** Over every run of port accesses, register writes and DMA: whatever changed has been marked. */
  lemma {:induction false} RunGrows(v: Vdp, ops: seq<Access>)
    requires v.Valid()
    ensures Grew(v, Run(v, ops))
    decreases |ops|
  {
    hide Grew, Do, Vdp.Valid;
    if ops == [] {
      GrewReflexive(v, v);
    } else {
      DoGrows(v, ops[0]);
      RunGrows(Do(v, ops[0]), ops[1..]);
      GrewTransitive(v, Do(v, ops[0]), Run(v, ops));
    }
  }

  // -------------------------------------------------------------- what accesses achieve

  /** The two words of a command for an address and a code (CD4 to CD0). */
  function FirstWord(code: nat, a: Word): Word { code % 4 * 0x4000 + a % 0x4000 }

  function SecondWord(code: nat, a: Word): Word
    requires code < 0x20
  {
    code / 4 * 0x10 + a / 0x4000
  }

  function CodeLow(code: nat): bv8 { (code % 4 * 4) as bv8 }

  function CodeHigh(code: nat): bv8
    requires code < 0x20
  {
    (code / 4 * 0x10) as bv8
  }

  function Mirror(a: Word): int { (a as int) * 0x1_0001 }

  function Aim(v: Vdp, code: nat, a: Word, bus: Bus): (r: Vdp)
    requires v.Valid() && code < 0x20
    ensures r.Valid()
  {
    WriteControl(WriteControl(v, FirstWord(code, a), bus), SecondWord(code, a), bus)
  }

  lemma Narrow(a: int, k: int, m: int)
    requires k > 0 && m > 0
    ensures k * m > 0 && a % (k * m) % m == a % m
  {
    var n := k * m;
    var q, r := a / n, a % n;
    assert a == q * n + r && q * n == (q * k) * m;
    assert (q * k + r / m) * m == (q * k) * m + r / m * m;
    Remainder(a, q * k + r / m, m, r % m);
  }

  /** A mirrored address is its lower half as far as any of the memories can tell. */
  lemma LowHalf(low: int)
    requires 0 <= low < 0x1_0000
    ensures low * 0x1_0001 % 0x1_0000 == low
    ensures 0 <= low * 0x1_0001 < 0x1_0000_0000
  {
    Remainder(low * 0x1_0001, low, 0x1_0000, low);
  }

  lemma LowBits(a: int, b: int)
    requires a % 0x1_0000 == b % 0x1_0000
    ensures a % 2 == b % 2
    ensures a % 0x80 == b % 0x80
    ensures a % 0x4000 == b % 0x4000
  {
    Narrow(a, 0x8000, 2);
    Narrow(b, 0x8000, 2);
    Narrow(a, 0x200, 0x80);
    Narrow(b, 0x200, 0x80);
    Narrow(a, 4, 0x4000);
    Narrow(b, 4, 0x4000);
  }

  lemma NextLow(a: int, b: int)
    requires a % 0x1_0000 == b % 0x1_0000
    ensures (a + 1) % 0x1_0000 == (b + 1) % 0x1_0000
  {
  }

  lemma FirstLow(before: int, a: Word)
    requires 0 <= before < 0x1_0000
    ensures (before / 0x4000 * 0x4000 + a % 0x4000) * 0x1_0001 % 0x4000 == a % 0x4000
  {
    var low := before / 0x4000 * 0x4000 + a % 0x4000;
    LowHalf(low);
    Remainder(low, before / 0x4000, 0x4000, a % 0x4000);
    Narrow(low * 0x1_0001, 4, 0x4000);
  }

  /** The second word of a command completes the address and the code. */
  lemma SecondHalf(c: Vdp, code: nat, a: Word, bus: Bus)
    requires c.Valid() && c.pending && code < 0x20 && c.addr % 0x4000 == a % 0x4000
    ensures WriteControl(c, SecondWord(code, a), bus)
         == c.(addr := Mirror(a), mode := c.mode | CodeHigh(code), dma := false, pending := false)
  {
    var cmd := SecondWord(code, a);
    SecondWordFields(code, a);
    hide RunDma, WriteReg, CommandFirst, SecondWord;
  }

  lemma SecondWordFields(code: nat, a: Word)
    requires code < 0x20
    ensures var cmd := SecondWord(code, a);
            cmd % 4 * 0x4000 + a % 0x4000 == a && cmd / 0x10 % 8 == code / 4 && cmd / 0x80 % 2 == 0
  {
    var x, y := code / 4, a / 0x4000;
    assert x < 8 && y < 4;
  }

  /** The first word of a command goes to the address and code registers, whatever they held. */
  lemma FirstHalf(v: Vdp, code: nat, a: Word, bus: Bus)
    requires v.Valid() && !v.pending && code < 0x20 && code % 4 != 2
    ensures var c := WriteControl(v, FirstWord(code, a), bus);
            && c.addr % 0x4000 == a % 0x4000
            && c == v.(addr := c.addr, mode := CodeLow(code), dma := false, pending := true)
  {
    var cmd := FirstWord(code, a);
    Remainder(cmd, code % 4, 0x4000, a % 0x4000);
    FirstLow(v.addr % 0x1_0000, a);
    hide CommandSecond, RunDma, WriteReg, FirstWord;
  }

  lemma AimIs(v: Vdp, code: nat, a: Word, bus: Bus)
    requires v.Valid() && code < 0x20
    ensures Aim(v, code, a, bus) == WriteControl(WriteControl(v, FirstWord(code, a), bus), SecondWord(code, a), bus)
  {
    hide WriteControl, FirstWord, SecondWord;
  }

  /** Whatever the address and code registers held, a command sets both halves of the address and all of the code. */
  lemma AimSets(v: Vdp, code: nat, a: Word, bus: Bus)
    requires v.Valid() && !v.pending && code < 0x20 && code % 4 != 2
    ensures Aim(v, code, a, bus)
         == v.(addr := Mirror(a), mode := CodeLow(code) | CodeHigh(code), dma := false, pending := false)
  {
    AimIs(v, code, a, bus);
    hide *;
    FirstHalf(v, code, a, bus);
    var c := WriteControl(v, FirstWord(code, a), bus);
    SecondHalf(c, code, a, bus);
    BothHalves(v, c, WriteControl(c, SecondWord(code, a), bus), Mirror(a), CodeLow(code), CodeHigh(code));
  }

  lemma BothHalves(v: Vdp, c: Vdp, r: Vdp, addr: int, low: bv8, high: bv8)
    requires c == v.(addr := c.addr, mode := low, dma := false, pending := true)
    requires r == c.(addr := addr, mode := c.mode | high, dma := false, pending := false)
    ensures r == v.(addr := addr, mode := low | high, dma := false, pending := false)
  {
  }

  const VRAM_WRITE := 1
  const CRAM_WRITE := 3
  const VSRAM_WRITE := 5
  const VRAM_READ := 0
  const CRAM_READ := 8
  const VSRAM_READ := 4

  function Swapped(d: Word): Word { Pair(d % 0x100, d / 0x100) }

  /** A word written to the data port. */
  function Sent(v: Vdp, d: Word): (r: Vdp)
    requires v.Valid()
    ensures r.Valid()
  {
    WriteWord(v, d).(pending := false)
  }

  lemma SentPair(v: Vdp, d: Word)
    requires v.Valid() && !v.dma
    ensures var p := PokeTwo(v, d / 0x100, d % 0x100); Sent(v, d) == Next(p).(pending := false)
  {
    hide PokeTwo, FillWords, Next;
  }

  lemma TwoPlaces(s: seq<Byte>, i: int, j: int, x: Byte, y: Byte)
    requires 0 <= i < |s| && 0 <= j < |s| && i != j
    ensures s[i := x][j := y][i] == x && s[i := x][j := y][j] == y
  {
  }

  /** What two pokes leave in VRAM, CRAM and VSRAM. */
  lemma PokeTwoStores(v: Vdp, a: Word, first: Byte, second: Byte)
    requires v.Valid() && v.addr % 0x1_0000 == a
    ensures var p := PokeTwo(v, first, second);
            && (v.mode == WRITE_VRAM ==>
                 var b := (a + 1) % VRAM_SIZE;
                 p.vram == if a % 2 == 1 then v.vram[a := second][b := first] else v.vram[a := first][b := second])
            && (v.mode == WRITE_CRAM ==> p.cram == v.cram[a % CRAM_SIZE := first][(a + 1) % CRAM_SIZE := second])
            && (v.mode == WRITE_VSRAM ==> p.vsram == v.vsram[a % VSRAM_SIZE := first][(a + 1) % VSRAM_SIZE := second])
  {
    LowBits(v.addr, a);
    NextLow(v.addr, a);
    LowBits(v.addr + 1, a + 1);
    assert forall w: Vdp, x: int, d: Byte :: w.Valid() ==> PokeVram(w, x, d).vram == w.vram[x % VRAM_SIZE := d];
    assert forall w: Vdp, x: int, d: Byte :: w.Valid() ==> PokeCram(w, x, d).cram == w.cram[x % CRAM_SIZE := d];
    assert forall w: Vdp, x: int, d: Byte :: w.Valid() ==> PokeVsram(w, x, d).vsram == w.vsram[x % VSRAM_SIZE := d];
    hide PokeVram, PokeCram, PokeVsram, Vdp.Valid;
  }

  lemma CodeOf(code: nat)
    requires || code == VRAM_WRITE || code == CRAM_WRITE || code == VSRAM_WRITE
             || code == VRAM_READ || code == CRAM_READ || code == VSRAM_READ
    ensures code < 0x20 && code % 4 != 2
    ensures CodeLow(code) | CodeHigh(code)
         == if code == VRAM_WRITE then WRITE_VRAM else if code == CRAM_WRITE then WRITE_CRAM
            else if code == VSRAM_WRITE then WRITE_VSRAM else if code == VRAM_READ then READ_VRAM
            else if code == CRAM_READ then READ_CRAM else READ_VSRAM
  {
  }

  /** A word written through the ports to any address of any memory, after any history. */
  lemma SentTo(v: Vdp, code: nat, a: Word, d: Word, bus: Bus)
    requires v.Valid() && !v.pending && (code == VRAM_WRITE || code == CRAM_WRITE || code == VSRAM_WRITE)
    ensures var w, b := Sent(Aim(v, code, a, bus), d), (a + 1) % VRAM_SIZE;
            && !w.pending
            && (code == VRAM_WRITE ==>
                 w.vram == if a % 2 == 1 then v.vram[a := d % 0x100][b := d / 0x100]
                           else v.vram[a := d / 0x100][b := d % 0x100])
            && (code == CRAM_WRITE ==> w.cram == v.cram[a % CRAM_SIZE := d / 0x100][(a + 1) % CRAM_SIZE := d % 0x100])
            && (code == VSRAM_WRITE ==>
                      w.vsram == v.vsram[a % VSRAM_SIZE := d / 0x100][(a + 1) % VSRAM_SIZE := d % 0x100])
  {
    CodeOf(code);
    AimSets(v, code, a, bus);
    LowHalf(a);
    var r := Aim(v, code, a, bus);
    SentPair(r, d);
    PokeTwoStores(r, a, d / 0x100, d % 0x100);
    hide PokeTwo, Aim, Sent;
  }

  lemma Mirrored(a: Word)
    ensures var x := Mirror(a);
            && x % VRAM_SIZE == a && (x + 1) % VRAM_SIZE == (a + 1) % VRAM_SIZE
            && x % CRAM_SIZE == a % CRAM_SIZE && (x + 1) % CRAM_SIZE == (a + 1) % CRAM_SIZE
  {
    var x := Mirror(a);
    LowHalf(a);
    LowBits(x, a);
    NextLow(x, a);
    LowBits(x + 1, a + 1);
  }

  lemma ReadFrom(v: Vdp, code: nat, a: Word, bus: Bus)
    requires v.Valid() && !v.pending && (code == VRAM_READ || code == CRAM_READ || code == VSRAM_READ)
    ensures var w := ReadWord(Aim(v, code, a, bus)).1;
            && (code == VRAM_READ ==> w == Pair(v.vram[a], v.vram[(a + 1) % VRAM_SIZE]))
            && (code == CRAM_READ ==> w == Pair(v.cram[a % CRAM_SIZE], v.cram[(a + 1) % CRAM_SIZE]))
            && (code == VSRAM_READ ==> w == Pair(v.vsram[a % VSRAM_SIZE], v.vsram[(a + 1) % VSRAM_SIZE]))
  {
    CodeOf(code);
    AimSets(v, code, a, bus);
    hide Aim, Pair, ReadWord, Mirror, CodeLow, CodeHigh;
    ReadAt(Aim(v, code, a, bus), a);
  }

  lemma ReadAt(r: Vdp, a: Word)
    requires r.Valid() && r.addr == Mirror(a)
    ensures r.mode == READ_VRAM ==> ReadWord(r).1 == Pair(r.vram[a], r.vram[(a + 1) % VRAM_SIZE])
    ensures r.mode == READ_CRAM ==> ReadWord(r).1 == Pair(r.cram[a % CRAM_SIZE], r.cram[(a + 1) % CRAM_SIZE])
    ensures r.mode == READ_VSRAM ==> ReadWord(r).1 == Pair(r.vsram[a % VSRAM_SIZE], r.vsram[(a + 1) % VSRAM_SIZE])
  {
    Mirrored(a);
    hide Pair, Next, Mirror;
  }

  lemma PairOf(d: Word)
    ensures Pair(d / 0x100, d % 0x100) == d
  {
  }

  lemma VramAfter(v: Vdp, a: Word, d: Word, bus: Bus)
    requires v.Valid() && !v.pending
    ensures var w := Sent(Aim(v, VRAM_WRITE, a, bus), d);
            !w.pending && w.vram[a] == (if a % 2 == 1 then d % 0x100 else d / 0x100)
            && w.vram[(a + 1) % VRAM_SIZE] == (if a % 2 == 1 then d / 0x100 else d % 0x100)
  {
    SentTo(v, VRAM_WRITE, a, d, bus);
    var hi, lo, b := d / 0x100, d % 0x100, (a + 1) % VRAM_SIZE;
    assert a != b;
    hide *;
    TwoPlaces(v.vram, a, b, lo, hi);
    TwoPlaces(v.vram, a, b, hi, lo);
  }

  lemma ReadsBackVram(v: Vdp, a: Word, d: Word, bus: Bus)
    requires v.Valid() && !v.pending
    ensures ReadWord(Aim(Sent(Aim(v, VRAM_WRITE, a, bus), d), VRAM_READ, a, bus)).1
         == if a % 2 == 0 then d else Swapped(d)
  {
    VramAfter(v, a, d, bus);
    var w := Sent(Aim(v, VRAM_WRITE, a, bus), d);
    ReadFrom(w, VRAM_READ, a, bus);
    PairOf(d);
    assert Swapped(d) == Pair(d % 0x100, d / 0x100);
    hide *;
  }

  lemma NextDiffers(a: int)
    ensures a % 0x80 != (a + 1) % 0x80
  {
  }

  lemma ReadsBackCram(v: Vdp, a: Word, d: Word, bus: Bus)
    requires v.Valid() && !v.pending
    ensures ReadWord(Aim(Sent(Aim(v, CRAM_WRITE, a, bus), d), CRAM_READ, a, bus)).1 == d
  {
    SentTo(v, CRAM_WRITE, a, d, bus);
    ReadFrom(Sent(Aim(v, CRAM_WRITE, a, bus), d), CRAM_READ, a, bus);
    PairOf(d);
    NextDiffers(a);
    TwoPlaces(v.cram, a % CRAM_SIZE, (a + 1) % CRAM_SIZE, d / 0x100, d % 0x100);
    hide *;
  }

  lemma ReadsBackVsram(v: Vdp, a: Word, d: Word, bus: Bus)
    requires v.Valid() && !v.pending
    ensures ReadWord(Aim(Sent(Aim(v, VSRAM_WRITE, a, bus), d), VSRAM_READ, a, bus)).1 == d
  {
    SentTo(v, VSRAM_WRITE, a, d, bus);
    ReadFrom(Sent(Aim(v, VSRAM_WRITE, a, bus), d), VSRAM_READ, a, bus);
    PairOf(d);
    NextDiffers(a);
    TwoPlaces(v.vsram, a % VSRAM_SIZE, (a + 1) % VSRAM_SIZE, d / 0x100, d % 0x100);
    hide *;
  }

  /** What is written through the ports is read back through them, for every word, address and history, except that
      a word written to an odd VRAM address comes back with its bytes swapped. */
  lemma ReadsBack(v: Vdp, a: Word, d: Word, bus: Bus)
    requires v.Valid() && !v.pending
    ensures ReadWord(Aim(Sent(Aim(v, VRAM_WRITE, a, bus), d), VRAM_READ, a, bus)).1
         == if a % 2 == 0 then d else Swapped(d)
    ensures ReadWord(Aim(Sent(Aim(v, CRAM_WRITE, a, bus), d), CRAM_READ, a, bus)).1 == d
    ensures ReadWord(Aim(Sent(Aim(v, VSRAM_WRITE, a, bus), d), VSRAM_READ, a, bus)).1 == d
  {
    hide *;
    ReadsBackVram(v, a, d, bus);
    ReadsBackCram(v, a, d, bus);
    ReadsBackVsram(v, a, d, bus);
  }
}
