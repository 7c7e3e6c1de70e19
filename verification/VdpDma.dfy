/** What the three kinds of DMA achieve (vdp.cpp), end to end: from the words that a program writes to the ports to the
    bytes that VRAM then holds. */
module VdpDma {
  import opened MachineWords
  import opened VdpMemory

  // --------------------------------------------------------------- words into VRAM

  /** How far x lies behind the address a, going round in VRAM. */
  function Ahead(a: int, x: int): (o: int)
    requires 0 <= x < VRAM_SIZE
    ensures 0 <= o < VRAM_SIZE
  {
    var low := a % VRAM_SIZE;
    if x >= low then x - low else x - low + VRAM_SIZE
  }

  lemma StepLow(a: int)
    requires 0 <= a < 0x1_0000_0000
    ensures (a + 1) % VRAM_SIZE == if a % VRAM_SIZE + 1 < VRAM_SIZE then a % VRAM_SIZE + 1 else 0
    ensures (a + 2) % VRAM_SIZE
         == if a % VRAM_SIZE + 2 < VRAM_SIZE then a % VRAM_SIZE + 2 else a % VRAM_SIZE + 2 - VRAM_SIZE
    ensures (a + 2) % 0x1_0000_0000 % VRAM_SIZE == (a + 2) % VRAM_SIZE
    ensures a % 2 == 0 ==> (a + 2) % 0x1_0000_0000 % 2 == 0
  {
    var low, q := a % VRAM_SIZE, a / VRAM_SIZE;
    Narrow(a + 2, 0x1_0000, VRAM_SIZE);
    Narrow(a + 2, 0x8000_0000, 2);
    if low + 1 < VRAM_SIZE { Remainder(a + 1, q, VRAM_SIZE, low + 1); } else { Remainder(a + 1, q + 1, VRAM_SIZE, 0); }
    if low + 2 < VRAM_SIZE {
      Remainder(a + 2, q, VRAM_SIZE, low + 2);
    } else {
      Remainder(a + 2, q + 1, VRAM_SIZE, low + 2 - VRAM_SIZE);
    }
  }

  /** The word that is put at an odd address goes there with its bytes swapped. */
  function Side(a: int, o: int): int {
    if a % 2 == 0 then o else if o % 2 == 0 then o + 1 else o - 1
  }

  /** What a DMA keeps: everything but VRAM, its dirty bits and the address. */
  ghost predicate OnlyVram(v: Vdp, r: Vdp) {
    r == v.(vram := r.vram, dirt := r.dirt, addr := r.addr)
  }

  /** A DMA into VRAM that steps two bytes a word. */
  ghost predicate Ready(v: Vdp) {
    v.Valid() && v.mode == WRITE_VRAM && v.reg[15] == 2
  }

  lemma OddPoke(v: Vdp, first: Byte, second: Byte)
    requires v.Valid() && v.mode == WRITE_VRAM && v.addr % 2 == 1
    ensures var p := PokeTwo(v, first, second);
            && OnlyVram(v, p) && p.addr == v.addr
            && p.vram == v.vram[v.addr % VRAM_SIZE := second][(v.addr + 1) % VRAM_SIZE := first]
  {
    hide SetBit;
  }

  lemma EvenPoke(v: Vdp, first: Byte, second: Byte)
    requires v.Valid() && v.mode == WRITE_VRAM && v.addr % 2 == 0
    ensures var p := PokeTwo(v, first, second);
            && OnlyVram(v, p) && p.addr == v.addr
            && p.vram == v.vram[v.addr % VRAM_SIZE := first][(v.addr + 1) % VRAM_SIZE := second]
  {
    hide SetBit;
  }

  lemma NextSteps(v: Vdp)
    requires Ready(v)
    ensures Next(v) == v.(addr := (v.addr + 2) % 0x1_0000_0000)
  {
  }

  lemma StepTwo(a: int)
    requires 0 <= a < 0x1_0000_0000
    ensures var b := (a + 2) % 0x1_0000_0000;
            0 <= b < 0x1_0000_0000 && b % 2 == a % 2 && b % VRAM_SIZE == (a + 2) % VRAM_SIZE
  {
    StepLow(a);
    Narrow(a + 2, 0x8000_0000, 2);
  }

  /** Which byte of the word arrives at distance o. */
  function ByteOf(d: Word, i: int): Byte { if i == 0 then d / 0x100 else d % 0x100 }

  lemma PutWordMoves(v: Vdp, d: Word)
    requires Ready(v)
    ensures var r := PutWord(v, d);
            OnlyVram(v, r) && Ready(r) && r.addr == (v.addr + 2) % 0x1_0000_0000
  {
    var hi, lo := d / 0x100, d % 0x100;
    if v.addr % 2 == 1 { OddPoke(v, hi, lo); } else { EvenPoke(v, hi, lo); }
    NextSteps(PokeTwo(v, hi, lo));
    hide PokeTwo, Next;
  }

  lemma ReadyIsValid(v: Vdp)
    requires Ready(v)
    ensures v.Valid() && 0 <= v.addr < 0x1_0000_0000 && |v.vram| == VRAM_SIZE
  {
  }

  /** Seen from the address after it, a cell is two closer. */
  lemma StepAhead(a: int, x: nat)
    requires 0 <= a < 0x1_0000_0000 && x < VRAM_SIZE
    ensures var b, o := (a + 2) % 0x1_0000_0000, Ahead(a, x);
            Ahead(b, x) == (if o >= 2 then o - 2 else o + VRAM_SIZE - 2) && b % 2 == a % 2
  {
    StepLow(a);
    StepTwo(a);
  }

  /** Which of two cells in a row a cell is. */
  lemma TwoCells(s: seq<Byte>, a: int, x: nat, first: Byte, second: Byte)
    requires |s| == VRAM_SIZE && 0 <= a < 0x1_0000_0000 && x < VRAM_SIZE
    ensures var o := Ahead(a, x);
            s[a % VRAM_SIZE := first][(a + 1) % VRAM_SIZE := second][x]
            == if o == 0 then first else if o == 1 then second else s[x]
  {
    StepLow(a);
  }

  /** A word goes to the two cells at the address, and the rest of VRAM is left alone. */
  lemma PutWordCell(v: Vdp, d: Word, x: nat)
    requires Ready(v) && x < VRAM_SIZE
    ensures var r, o := PutWord(v, d), Ahead(v.addr, x);
            && r.Valid() && r.vram[x] == (if o < 2 then ByteOf(d, Side(v.addr, o)) else v.vram[x])
            && Ahead(r.addr, x) == (if o >= 2 then o - 2 else o + VRAM_SIZE - 2) && r.addr % 2 == v.addr % 2
  {
    var hi, lo := d / 0x100, d % 0x100;
    ReadyIsValid(v);
    StepAhead(v.addr, x);
    PutWordMoves(v, d);
    if v.addr % 2 == 1 {
      OddPoke(v, hi, lo);
      TwoCells(v.vram, v.addr, x, lo, hi);
    } else {
      EvenPoke(v, hi, lo);
      TwoCells(v.vram, v.addr, x, hi, lo);
    }
    hide PokeTwo, Ready, Ahead, OnlyVram;
  }

  // ------------------------------------------------------------------ copy from the bus

  lemma CopyStep(v: Vdp, bus: Bus, s: nat, n: nat)
    requires v.Valid()
    ensures n == 0 ==> CopyFromBus(v, bus, s, n) == v
    ensures n > 0 ==>
              CopyFromBus(v, bus, s, n) == CopyFromBus(PutWord(v, Pair(bus.At(s), bus.At(s + 1))), bus, s + 2, n - 1)
  {
    hide PutWord, Bus.At, Pair;
  }

  /** Of n words sent round VRAM from a cell at distance 0 on, how many bytes were sent before the last one that goes to
      the cell at distance o: as often as the whole of VRAM fits in between. */
  function LastRound(o: int, n: nat): int { (2 * n - 1 - o) / VRAM_SIZE * VRAM_SIZE }

  lemma RoundStep(o: int, n: nat)
    requires 0 <= o < VRAM_SIZE && n > 0 && o < 2 * n
    ensures 2 <= o ==> o - 2 < 2 * (n - 1) && LastRound(o - 2, n - 1) == LastRound(o, n)
    ensures o < 2 && o + VRAM_SIZE < 2 * n ==> LastRound(o + VRAM_SIZE - 2, n - 1) + VRAM_SIZE == LastRound(o, n)
    ensures o < 2 && o + VRAM_SIZE >= 2 * n ==> LastRound(o, n) == 0
  {
  }

  lemma {:induction false} CopyKeeps(v: Vdp, bus: Bus, s: nat, n: nat)
    requires Ready(v)
    ensures OnlyVram(v, CopyFromBus(v, bus, s, n))
    decreases n
  {
    hide *;
    ReadyIsValid(v);
    CopyStep(v, bus, s, n);
    if n > 0 {
      var w := Pair(bus.At(s), bus.At(s + 1));
      PutWordMoves(v, w);
      CopyKeeps(PutWord(v, w), bus, s + 2, n - 1);
      KeptTwice(v, PutWord(v, w), CopyFromBus(v, bus, s, n));
    } else {
      NothingKept(v);
    }
  }

  lemma KeptTwice(v: Vdp, u: Vdp, r: Vdp)
    requires OnlyVram(v, u) && OnlyVram(u, r)
    ensures OnlyVram(v, r)
  {
  }

  lemma NothingKept(v: Vdp)
    ensures OnlyVram(v, v)
  {
  }

  lemma BusBytes(bus: Bus, s: nat, i: int)
    requires i == 0 || i == 1
    ensures ByteOf(Pair(bus.At(s), bus.At(s + 1)), i) == bus.At(s + i)
  {
    hide Bus.At;
  }

  /** A DMA copy into VRAM with an increment of two, of any length and to any address: the source bytes go round VRAM in
      order, those of a word in turn swapped at an odd address; the last one sent to a cell stays. */
  lemma {:induction false} DmaCopies(v: Vdp, bus: Bus, s: nat, n: nat, x: nat)
    requires Ready(v) && x < VRAM_SIZE
    ensures var o := Ahead(v.addr, x);
            CopyFromBus(v, bus, s, n).vram[x]
            == if o < 2 * n then bus.At(s + LastRound(o, n) + Side(v.addr, o)) else v.vram[x]
    decreases n
  {
    hide *;
    ReadyIsValid(v);
    CopyStep(v, bus, s, n);
    if n > 0 {
      var w := Pair(bus.At(s), bus.At(s + 1));
      PutWordMoves(v, w);
      PutWordCell(v, w, x);
      DmaCopies(PutWord(v, w), bus, s + 2, n - 1, x);
      CopyCell(v.addr, PutWord(v, w).addr, s, n, x);
      BusBytes(bus, s, 0);
      BusBytes(bus, s, 1);
    }
  }

  /** The arithmetic of one more word in front. */
  lemma CopyCell(a: int, b: int, s: nat, n: nat, x: nat)
    requires x < VRAM_SIZE && n > 0 && a % 2 == b % 2
    requires var o := Ahead(a, x); Ahead(b, x) == if o >= 2 then o - 2 else o + VRAM_SIZE - 2
    ensures var o, p := Ahead(a, x), Ahead(b, x);
            && (o >= 2 ==> (p < 2 * (n - 1) <==> o < 2 * n))
            && (o >= 2 && o < 2 * n ==> s + 2 + LastRound(p, n - 1) + Side(b, p) == s + LastRound(o, n) + Side(a, o))
            && (o < 2 && p < 2 * (n - 1) ==>
                 s + 2 + LastRound(p, n - 1) + Side(b, p) == s + LastRound(o, n) + Side(a, o))
            && (o < 2 && p >= 2 * (n - 1) ==> LastRound(o, n) == 0 && 0 <= Side(a, o) < 2) && (o < 2 ==> o < 2 * n)
  {
    var o := Ahead(a, x);
    hide Ahead, LastRound;
    if o < 2 * n { RoundStep(o, n); }
  }

  /** A DMA fill is a copy from a bus that repeats the word. */
  lemma {:induction false} FillIsConstantCopy(v: Vdp, d: Word, bus: Bus, s: nat, n: nat)
    requires v.Valid() && forall a :: s <= a < s + 2 * n ==>
              bus.At(a) == if (a - s) % 2 == 0 then d / 0x100 else d % 0x100
    ensures FillWords(v, d, n) == CopyFromBus(v, bus, s, n)
    decreases n
  {
    hide PutWord, Bus.At;
    if n > 0 {
      assert Pair(bus.At(s), bus.At(s + 1)) == d by {
        PairOf(d);
        assert (s + 1 - s) % 2 == 1;
      }
      forall a | s + 2 <= a < s + 2 + 2 * (n - 1)
        ensures bus.At(a) == if (a - (s + 2)) % 2 == 0 then d / 0x100 else d % 0x100
      {
        assert (a - (s + 2)) % 2 == (a - s) % 2;
      }
      FillIsConstantCopy(PutWord(v, d), d, bus, s + 2, n - 1);
    }
  }

  // ------------------------------------------------------------------------------- fill

  lemma SideIsParity(a: int, x: nat, d: Word)
    requires 0 <= a < 0x1_0000_0000 && x < VRAM_SIZE && Ahead(a, x) < 2
    ensures ByteOf(d, Side(a, Ahead(a, x))) == if x % 2 == 0 then d / 0x100 else d % 0x100
  {
    LowBits(a, a % VRAM_SIZE);
    StepLow(a);
  }

  /** A fill of n words puts the upper byte at the even and the lower byte at the odd addresses, wherever it starts. */
  lemma {:induction false} FillCell(v: Vdp, d: Word, n: nat, x: nat)
    requires Ready(v) && x < VRAM_SIZE
    ensures OnlyVram(v, FillWords(v, d, n))
    ensures FillWords(v, d, n).vram[x]
         == if Ahead(v.addr, x) < 2 * n then (if x % 2 == 0 then d / 0x100 else d % 0x100) else v.vram[x]
    decreases n
  {
    hide *;
    ReadyIsValid(v);
    FillStep(v, d, n);
    if n > 0 {
      PutWordMoves(v, d);
      PutWordCell(v, d, x);
      FillCell(PutWord(v, d), d, n - 1, x);
      KeptTwice(v, PutWord(v, d), FillWords(v, d, n));
      if Ahead(v.addr, x) < 2 { SideIsParity(v.addr, x, d); }
    } else {
      NothingKept(v);
    }
  }

  lemma FillStep(v: Vdp, d: Word, n: nat)
    requires v.Valid()
    ensures FillWords(v, d, n) == if n == 0 then v else FillWords(PutWord(v, d), d, n - 1)
  {
    hide PutWord;
  }

  lemma BytePoke(v: Vdp, b: Byte)
    requires v.Valid()
    ensures var p := PokeVram(v, v.addr, b);
            OnlyVram(v, p) && p.addr == v.addr && p.vram == v.vram[v.addr % VRAM_SIZE := b]
  {
    hide SetBit;
  }

  lemma AheadIsZero(a: int, x: nat)
    requires x < VRAM_SIZE
    ensures Ahead(a, x) == 0 <==> x == a % VRAM_SIZE
  {
  }

  lemma PutByteCell(v: Vdp, b: Byte, x: nat)
    requires Ready(v) && x < VRAM_SIZE
    ensures var r, o := PutByte(v, b), Ahead(v.addr, x);
            && OnlyVram(v, r) && Ready(r) && r.vram[x] == (if o == 0 then b else v.vram[x])
            && Ahead(r.addr, x) == (if o >= 2 then o - 2 else o + VRAM_SIZE - 2) && Ahead(r.addr, x) % 2 == o % 2
  {
    hide PokeVram, Next, Ahead;
    StepAhead(v.addr, x);
    BytePoke(v, b);
    NextSteps(PokeVram(v, v.addr, b));
    AheadIsZero(v.addr, x);
  }

  /** A fill of n bytes with an increment of two fills every other cell. */
  lemma {:induction false} FillByteCell(v: Vdp, b: Byte, n: nat, x: nat)
    requires Ready(v) && x < VRAM_SIZE
    ensures OnlyVram(v, FillBytes(v, b, n))
    ensures FillBytes(v, b, n).vram[x]
         == if Ahead(v.addr, x) < 2 * n && Ahead(v.addr, x) % 2 == 0 then b else v.vram[x]
    decreases n
  {
    hide *;
    ReadyIsValid(v);
    FillByteStep(v, b, n);
    if n > 0 {
      PutByteCell(v, b, x);
      FillByteCell(PutByte(v, b), b, n - 1, x);
      KeptTwice(v, PutByte(v, b), FillBytes(v, b, n));
    } else {
      NothingKept(v);
    }
  }

  lemma FillByteStep(v: Vdp, b: Byte, n: nat)
    requires v.Valid()
    ensures FillBytes(v, b, n) == if n == 0 then v else FillBytes(PutByte(v, b), b, n - 1)
  {
    hide PutByte;
  }

  // -------------------------------------------------------------------- copy inside VRAM

  /** How far the destination lies ahead of the source, 1 to 0x10000. */
  function Gap(a: int, s: int): (d: int)
    requires 0 <= a < VRAM_SIZE && 0 <= s < VRAM_SIZE
    ensures 1 <= d <= VRAM_SIZE
  {
    if a > s then a - s else a - s + VRAM_SIZE
  }

  /** The byte that a copy inside VRAM puts at distance o: the source byte, unless an earlier word of the same copy has
      been put there. */
  function CopiedByte(mem: seq<Byte>, a: int, s: int, o: nat): Byte
    requires |mem| == VRAM_SIZE && 0 <= a < VRAM_SIZE && 0 <= s < VRAM_SIZE
    decreases o
  {
    var q := Side(a, o);
    var p := q - Gap(a, s);
    if 0 <= p < o / 2 * 2 then CopiedByte(mem, a, s, p) else mem[(s + q) % VRAM_SIZE]
  }

  /** All of VRAM after a copy of at most as many words as it holds. */
  function Copied(mem: seq<Byte>, a: int, s: int, n: nat): (r: seq<Byte>)
    requires |mem| == VRAM_SIZE && 0 <= a < VRAM_SIZE && 0 <= s < VRAM_SIZE
    ensures |r| == VRAM_SIZE
  {
    seq(VRAM_SIZE, x requires 0 <= x < VRAM_SIZE =>
      if Ahead(a, x) < 2 * n then CopiedByte(mem, a, s, Ahead(a, x)) else mem[x])
  }

  /** Between even addresses: the stretch between source and destination is repeated. */
  lemma {:induction false} EvenCopyRepeats(mem: seq<Byte>, a: int, s: int, o: nat)
    requires |mem| == VRAM_SIZE && 0 <= a < VRAM_SIZE && 0 <= s < VRAM_SIZE && a % 2 == 0 && s % 2 == 0
    ensures CopiedByte(mem, a, s, o) == mem[(s + o % Gap(a, s)) % VRAM_SIZE]
    decreases o
  {
    hide *;
    EvenStep(mem, a, s, o);
    var d := Gap(a, s);
    if o >= d {
      EvenCopyRepeats(mem, a, s, o - d);
      OneBack(o, d);
    } else {
      Remainder(o, 0, d, o);
    }
  }

  lemma EvenStep(mem: seq<Byte>, a: int, s: int, o: nat)
    requires |mem| == VRAM_SIZE && 0 <= a < VRAM_SIZE && 0 <= s < VRAM_SIZE && a % 2 == 0 && s % 2 == 0
    ensures CopiedByte(mem, a, s, o)
         == if o >= Gap(a, s) then CopiedByte(mem, a, s, o - Gap(a, s)) else mem[(s + o) % VRAM_SIZE]
  {
    assert Gap(a, s) % 2 == 0;
  }

  lemma OneBack(o: int, d: int)
    requires 0 < d <= o
    ensures (o - d) % d == o % d
  {
    Remainder(o, (o - d) / d + 1, d, (o - d) % d);
  }

  lemma VramStep(v: Vdp, s: nat, n: nat)
    requires v.Valid()
    ensures CopyFromVram(v, s, n)
         == if n == 0 then v
            else CopyFromVram(PutWord(v, Pair(v.vram[s % VRAM_SIZE], v.vram[(s + 1) % VRAM_SIZE])), s + 2, n - 1)
  {
    hide PutWord, Pair;
  }

  /** The word that a copy inside VRAM reads next. */
  function WordFrom(v: Vdp, s: nat): Word
    requires v.Valid()
  {
    Pair(v.vram[s % VRAM_SIZE], v.vram[(s + 1) % VRAM_SIZE])
  }

  lemma {:induction false} LastWord(v: Vdp, s: nat, n: nat)
    requires v.Valid() && n > 0
    ensures var r := CopyFromVram(v, s, n - 1); CopyFromVram(v, s, n) == PutWord(r, WordFrom(r, s + 2 * (n - 1)))
    decreases n
  {
    hide PutWord, Pair, Vdp.Valid, CopyFromVram;
    VramStep(v, s, n);
    VramStep(v, s, n - 1);
    var w := PutWord(v, WordFrom(v, s));
    if n > 1 {
      LastWord(w, s + 2, n - 1);
    } else {
      VramStep(w, s + 2, 0);
    }
  }

  lemma {:induction false} CopySplits(v: Vdp, s: nat, n: nat, m: nat)
    requires v.Valid()
    ensures CopyFromVram(v, s, m + n) == CopyFromVram(CopyFromVram(v, s, m), s + 2 * m, n)
    decreases m
  {
    hide PutWord, Pair, Vdp.Valid, CopyFromVram;
    VramStep(v, s, m);
    VramStep(v, s, m + n);
    if m > 0 { CopySplits(PutWord(v, WordFrom(v, s)), s + 2, n, m - 1); }
  }

  lemma {:induction false} CopyMoves(v: Vdp, s: nat, n: nat)
    requires Ready(v)
    ensures var r := CopyFromVram(v, s, n);
            OnlyVram(v, r) && Ready(r) && r.addr % VRAM_SIZE == (v.addr + 2 * n) % VRAM_SIZE && r.addr % 2 == v.addr % 2
    decreases n
  {
    hide *;
    ReadyIsValid(v);
    VramStep(v, s, n);
    if n > 0 {
      var w := PutWord(v, WordFrom(v, s));
      WordFromIs(v, s);
      PutWordMoves(v, WordFrom(v, s));
      CopyMoves(w, s + 2, n - 1);
      KeptTwice(v, w, CopyFromVram(v, s, n));
      StepTwo(v.addr);
      SameLow(w.addr, v.addr + 2, 2 * (n - 1));
    } else {
      NothingKept(v);
    }
  }

  lemma WordFromIs(v: Vdp, s: nat)
    requires v.Valid()
    ensures WordFrom(v, s) == Pair(v.vram[s % VRAM_SIZE], v.vram[(s + 1) % VRAM_SIZE])
  {
    hide Pair;
  }

  lemma SameLow(a: int, b: int, k: int)
    requires a % VRAM_SIZE == b % VRAM_SIZE
    ensures (a + k) % VRAM_SIZE == (b + k) % VRAM_SIZE
  {
    Remainder(a + k, a / VRAM_SIZE + (a % VRAM_SIZE + k) / VRAM_SIZE, VRAM_SIZE, (a % VRAM_SIZE + k) % VRAM_SIZE);
    Remainder(b + k, b / VRAM_SIZE + (a % VRAM_SIZE + k) / VRAM_SIZE, VRAM_SIZE, (a % VRAM_SIZE + k) % VRAM_SIZE);
  }

  /** Where a source cell lies as seen from the destination. */
  lemma SourceAhead(a: int, s: int, q: nat)
    requires 0 <= a < VRAM_SIZE && 0 <= s < VRAM_SIZE && q < VRAM_SIZE
    ensures var p := q - Gap(a, s); Ahead(a, (s + q) % VRAM_SIZE) == if p >= 0 then p else p + VRAM_SIZE
  {
  }

  /** What the next word reads, of what has been copied so far. */
  lemma ReadsCopied(mem: seq<Byte>, a: int, s: int, k: nat, q: nat)
    requires |mem| == VRAM_SIZE && 0 <= a < VRAM_SIZE && 0 <= s < VRAM_SIZE && 2 * k <= q < 2 * k + 2 <= VRAM_SIZE
    ensures var p := q - Gap(a, s);
            Copied(mem, a, s, k)[(s + q) % VRAM_SIZE]
            == if 0 <= p < 2 * k then CopiedByte(mem, a, s, p) else mem[(s + q) % VRAM_SIZE]
  {
    SourceAhead(a, s, q);
    hide CopiedByte, Ahead;
  }

  lemma CopiedAt(mem: seq<Byte>, a: int, s: int, n: nat, x: nat)
    requires |mem| == VRAM_SIZE && 0 <= a < VRAM_SIZE && 0 <= s < VRAM_SIZE && x < VRAM_SIZE
    ensures Copied(mem, a, s, n)[x] == if Ahead(a, x) < 2 * n then CopiedByte(mem, a, s, Ahead(a, x)) else mem[x]
  {
    hide CopiedByte, Ahead;
  }

  lemma CopiedByteIs(mem: seq<Byte>, a: int, s: int, o: nat)
    requires |mem| == VRAM_SIZE && 0 <= a < VRAM_SIZE && 0 <= s < VRAM_SIZE
    ensures var p := Side(a, o) - Gap(a, s);
            CopiedByte(mem, a, s, o)
            == if 0 <= p < o / 2 * 2 then CopiedByte(mem, a, s, p) else mem[(s + Side(a, o)) % VRAM_SIZE]
  {
    hide Side, Gap;
  }

  lemma AheadOfWord(a: int, b: int, k: nat, x: nat)
    requires 0 <= a < VRAM_SIZE && b % VRAM_SIZE == (a + 2 * k) % VRAM_SIZE && x < VRAM_SIZE && 2 * k < VRAM_SIZE
    ensures Ahead(b, x) == Ahead(a, x) - 2 * k + if Ahead(a, x) >= 2 * k then 0 else VRAM_SIZE
  {
  }

  /** The two cells of word k, seen from the first word and from its own address. */
  lemma CellOfWord(a: int, b: int, k: nat, x: nat)
    requires 0 <= a < VRAM_SIZE && b % VRAM_SIZE == (a + 2 * k) % VRAM_SIZE && b % 2 == a % 2
    requires x < VRAM_SIZE && 2 * k + 2 <= VRAM_SIZE
    ensures var o, i := Ahead(a, x), Ahead(b, x);
            && (i < 2 <==> 2 * k <= o < 2 * k + 2)
            && (i < 2 ==> 2 * k <= Side(a, o) == 2 * k + Side(b, i) < 2 * k + 2 && 0 <= Side(b, i) < 2)
            && (i < 2 ==> o / 2 * 2 == 2 * k)
  {
    AheadOfWord(a, b, k, x);
    hide Ahead;
  }

  /** The byte that word k puts at a cell. */
  lemma WordOfCopy(v: Vdp, r: Vdp, s: nat, k: nat, x: nat)
    requires Ready(v) && Ready(r) && x < VRAM_SIZE && k < 0x8000
    requires r.addr % VRAM_SIZE == (v.addr + 2 * k) % VRAM_SIZE && r.addr % 2 == v.addr % 2
    requires r.vram == Copied(v.vram, v.addr % VRAM_SIZE, s % VRAM_SIZE, k)
    ensures PutWord(r, WordFrom(r, s + 2 * k)).vram[x]
         == Copied(v.vram, v.addr % VRAM_SIZE, s % VRAM_SIZE, k + 1)[x]
  {
    hide *;
    ReadyIsValid(v);
    ReadyIsValid(r);
    var a, b, w := v.addr % VRAM_SIZE, s % VRAM_SIZE, WordFrom(r, s + 2 * k);
    LowWords(v.addr, s, k);
    PutWordCell(r, w, x);
    AheadLow(v.addr, x);
    CellOfWord(a, r.addr, k, x);
    CopiedAt(v.vram, a, b, k, x);
    CopiedAt(v.vram, a, b, k + 1, x);
    if Ahead(r.addr, x) < 2 {
      var q := Side(a, Ahead(a, x));
      CopiedByteIs(v.vram, a, b, Ahead(a, x));
      ReadsCopied(v.vram, a, b, k, q);
      WordBytes(r, s + 2 * k, Side(r.addr, Ahead(r.addr, x)));
      SameLow(s, b, q);
    }
  }

  lemma LowWords(a: int, s: nat, k: nat)
    requires k < 0x8000 && a >= 0
    ensures (a + 2 * k) % VRAM_SIZE == (a % VRAM_SIZE + 2 * k) % VRAM_SIZE && a % VRAM_SIZE % 2 == a % 2
    ensures 0 <= a % VRAM_SIZE < VRAM_SIZE && 0 <= s % VRAM_SIZE < VRAM_SIZE && 2 * k + 2 <= VRAM_SIZE
    ensures s % VRAM_SIZE == s % VRAM_SIZE % VRAM_SIZE
  {
    SameLow(a, a % VRAM_SIZE, 2 * k);
    LowBits(a, a % VRAM_SIZE);
  }

  lemma AheadLow(a: int, x: nat)
    requires a >= 0 && x < VRAM_SIZE
    ensures Ahead(a % VRAM_SIZE, x) == Ahead(a, x)
  {
  }

  lemma WordBytes(r: Vdp, s: nat, i: int)
    requires r.Valid() && (i == 0 || i == 1)
    ensures ByteOf(WordFrom(r, s), i) == r.vram[(s + i) % VRAM_SIZE]
  {
  }

  /** A copy inside VRAM of at most as many words as it holds, between any two addresses. */
  lemma {:induction false} CopiesVram(v: Vdp, s: nat, n: nat)
    requires Ready(v) && n <= 0x8000
    ensures |v.vram| == VRAM_SIZE
    ensures CopyFromVram(v, s, n).vram == Copied(v.vram, v.addr % VRAM_SIZE, s % VRAM_SIZE, n)
  {
    hide *;
    ReadyIsValid(v);
    VramStep(v, s, n);
    if n == 0 {
      NothingCopied(v, s);
    } else {
      var r := CopyFromVram(v, s, n - 1);
      CopiesVram(v, s, n - 1);
      CopyMoves(v, s, n - 1);
      LastWord(v, s, n);
      PutWordMoves(r, WordFrom(r, s + 2 * (n - 1)));
      ReadyIsValid(CopyFromVram(v, s, n));
      forall x: nat | x < VRAM_SIZE
        ensures CopyFromVram(v, s, n).vram[x] == Copied(v.vram, v.addr % VRAM_SIZE, s % VRAM_SIZE, n)[x]
      {
        WordOfCopy(v, r, s, n - 1, x);
      }
    }
  }

  lemma NothingCopied(v: Vdp, s: nat)
    requires v.Valid()
    ensures Copied(v.vram, v.addr % VRAM_SIZE, s % VRAM_SIZE, 0) == v.vram
  {
    hide CopiedByte, Ahead;
  }

  /** A copy inside VRAM of any length: beyond 0x8000 words it goes round once more, over what the first round left. */
  lemma CopiesRound(v: Vdp, s: nat, n: nat)
    requires Ready(v) && n < 0x1_0000
    ensures |v.vram| == VRAM_SIZE
    ensures var a, b := v.addr % VRAM_SIZE, s % VRAM_SIZE;
            CopyFromVram(v, s, n).vram
            == if n <= 0x8000 then Copied(v.vram, a, b, n)
               else Copied(Copied(v.vram, a, b, 0x8000), a, b, n - 0x8000)
  {
    hide *;
    ReadyIsValid(v);
    if n <= 0x8000 {
      CopiesVram(v, s, n);
    } else {
      CopiesVram(v, s, 0x8000);
      CopyMoves(v, s, 0x8000);
      CopySplits(v, s, n - 0x8000, 0x8000);
      CopiesVram(CopyFromVram(v, s, 0x8000), s + 0x1_0000, n - 0x8000);
      OnceRound(v.addr);
      OnceRound(s);
    }
  }

  lemma OnceRound(a: int)
    requires a >= 0
    ensures (a + 2 * 0x8000) % VRAM_SIZE == a % VRAM_SIZE && (a + 0x1_0000) % VRAM_SIZE == a % VRAM_SIZE
    ensures 0 <= a % VRAM_SIZE < VRAM_SIZE
  {
  }

  // ------------------------------------------------------------------------- the ports

  /** The word that sets a register, and the two that start a DMA to a VRAM address. */
  function RegisterWord(r: nat, x: Byte): Word
    requires r < REGISTERS
  {
    0x8000 + r * 0x100 + x
  }

  /** What a program writes before a DMA: increment, length, source and kind. */
  function Setup(lo: Byte, hi: Byte, s0: Byte, s1: Byte, s2: Byte, bus: Bus): seq<Access> {
    [Control(0x8f02, bus), Control(RegisterWord(0x13, lo), bus), Control(RegisterWord(0x14, hi), bus),
     Control(RegisterWord(0x15, s0), bus), Control(RegisterWord(0x16, s1), bus), Control(RegisterWord(0x17, s2), bus)]
  }

  function Start(a: Word, bus: Bus): seq<Access> {
    [Control(0x4000 + a % 0x4000, bus), Control(0x80 + a / 0x4000, bus)]
  }

  lemma RunFirst(v: Vdp, x: Access, rest: seq<Access>)
    requires v.Valid()
    ensures Run(v, [x] + rest) == Run(Do(v, x), rest)
  {
    assert ([x] + rest)[1..] == rest;
    hide Do, Vdp.Valid;
  }

  lemma {:induction false} RunBoth(v: Vdp, xs: seq<Access>, ys: seq<Access>)
    requires v.Valid()
    ensures Run(v, xs + ys) == Run(Run(v, xs), ys)
    decreases |xs|
  {
    hide Do, Vdp.Valid;
    if xs == [] {
      assert xs + ys == ys;
    } else {
      assert (xs + ys)[1..] == xs[1..] + ys;
      RunBoth(Do(v, xs[0]), xs[1..], ys);
    }
  }

  lemma RunOne(v: Vdp, x: Access)
    requires v.Valid()
    ensures Run(v, [x]) == Do(v, x)
  {
    RunFirst(v, x, []);
    assert [x] + [] == [x];
    hide Do;
  }

  ghost predicate OnlyRegisters(v: Vdp, r: Vdp) {
    r == v.(reg := r.reg, dirt := r.dirt, mode := r.mode)
  }

  lemma RegisterSet(v: Vdp, n: nat, x: Byte, bus: Bus)
    requires v.Valid() && !v.pending && n < REGISTERS
    ensures var r := Do(v, Control(RegisterWord(n, x), bus));
            OnlyRegisters(v, r) && r.reg == v.reg[n := x] && !r.pending
  {
    RegisterFields(n, x);
    WriteRegExactly(v, n, x, 0);
    hide WriteReg, Command, Bit, RegisterWord;
  }

  lemma RegisterFields(n: nat, x: Byte)
    requires n < REGISTERS
    ensures var w := RegisterWord(n, x); w / 0x4000 == 2 && w / 0x100 % 0x20 == n && w % 0x100 == x
  {
  }

  lemma RegistersTwice(v: Vdp, u: Vdp, r: Vdp)
    requires OnlyRegisters(v, u) && OnlyRegisters(u, r)
    ensures OnlyRegisters(v, r)
  {
  }

  lemma ThreeRegisters(v: Vdp, i: nat, x: Byte, j: nat, y: Byte, k: nat, z: Byte, bus: Bus)
    requires v.Valid() && !v.pending && i < REGISTERS && j < REGISTERS && k < REGISTERS
    ensures var r := Run(v, [Control(RegisterWord(i, x), bus), Control(RegisterWord(j, y), bus),
                             Control(RegisterWord(k, z), bus)]);
            OnlyRegisters(v, r) && r.reg == v.reg[i := x][j := y][k := z] && !r.pending
  {
    hide *;
    var a, b, c := Control(RegisterWord(i, x), bus), Control(RegisterWord(j, y), bus), Control(RegisterWord(k, z), bus);
    assert [a, b, c] == [a] + [b, c] && [b, c] == [b] + [c];
    var u, w := Do(v, a), Do(Do(v, a), b);
    RunFirst(v, a, [b, c]);
    RunFirst(u, b, [c]);
    RunOne(w, c);
    RegisterSet(v, i, x, bus);
    RegisterSet(u, j, y, bus);
    RegisterSet(w, k, z, bus);
    RegistersTwice(v, u, w);
    RegistersTwice(v, w, Do(w, c));
  }

  lemma SetupIs(lo: Byte, hi: Byte, s0: Byte, s1: Byte, s2: Byte, bus: Bus)
    ensures Setup(lo, hi, s0, s1, s2, bus)
         == [Control(RegisterWord(15, 2), bus), Control(RegisterWord(0x13, lo), bus),
             Control(RegisterWord(0x14, hi), bus)]
            + [Control(RegisterWord(0x15, s0), bus), Control(RegisterWord(0x16, s1), bus),
               Control(RegisterWord(0x17, s2), bus)]
  {
  }

  lemma SetupRuns(v: Vdp, lo: Byte, hi: Byte, s0: Byte, s1: Byte, s2: Byte, bus: Bus)
    requires v.Valid() && !v.pending
    ensures var r := Run(v, Setup(lo, hi, s0, s1, s2, bus));
            && OnlyRegisters(v, r) && !r.pending
            && r.reg == v.reg[15 := 2][0x13 := lo][0x14 := hi][0x15 := s0][0x16 := s1][0x17 := s2]
  {
    var first := [Control(RegisterWord(15, 2), bus), Control(RegisterWord(0x13, lo), bus),
                  Control(RegisterWord(0x14, hi), bus)];
    var second := [Control(RegisterWord(0x15, s0), bus), Control(RegisterWord(0x16, s1), bus),
                   Control(RegisterWord(0x17, s2), bus)];
    hide Setup, Run, OnlyRegisters, RegisterWord, Vdp.Valid;
    SetupIs(lo, hi, s0, s1, s2, bus);
    RunBoth(v, first, second);
    ThreeRegisters(v, 15, 2, 0x13, lo, 0x14, hi, bus);
    ThreeRegisters(Run(v, first), 0x15, s0, 0x16, s1, 0x17, s2, bus);
    RegistersTwice(v, Run(v, first), Run(Run(v, first), second));
  }

  /** Where the command leaves the VDP before the DMA begins. */
  function Started(v: Vdp, a: Word): (c: Vdp)
    requires v.Valid()
    ensures c.Valid()
  {
    LowHalf(a);
    v.(addr := Mirror(a), mode := WRITE_VRAM, dma := true, pending := false)
  }

  lemma SecondSets(c: Vdp, a: Word)
    requires c.Valid() && c.addr % 0x4000 == a % 0x4000 && c.mode == WRITE_VRAM
    ensures CommandSecond(c, 0x80 + a / 0x4000) == Started(c, a) && Started(c, a).dma
  {
    StartFields(a);
  }

  lemma SecondStarts(c: Vdp, a: Word, bus: Bus)
    requires c.Valid() && c.pending && c.addr % 0x4000 == a % 0x4000 && c.mode == WRITE_VRAM
    ensures Do(c, Control(0x80 + a / 0x4000, bus)) == RunDma(Started(c, a), bus)
  {
    hide RunDma, WriteReg, CommandFirst, CommandSecond, Started, Vdp.Valid;
    SecondSets(c, a);
  }

  lemma StartFields(a: Word)
    ensures var cmd := 0x80 + a / 0x4000;
            && cmd % 4 * 0x4000 + a % 0x4000 == a && cmd / 0x10 % 8 == 0 && cmd / 0x80 % 2 == 1 && 0 <= cmd < 0x1_0000
  {
  }

  lemma FirstStarts(v: Vdp, a: Word, bus: Bus)
    requires v.Valid() && !v.pending
    ensures var c := Do(v, Control(0x4000 + a % 0x4000, bus));
            && c.addr % 0x4000 == a % 0x4000 && c.Valid()
            && c == v.(addr := c.addr, mode := WRITE_VRAM, dma := false, pending := true)
  {
    FirstHalf(v, 1, a, bus);
    assert FirstWord(1, a) == 0x4000 + a % 0x4000;
    assert CodeLow(1) == WRITE_VRAM;
    hide WriteControl;
  }

  lemma StartRuns(v: Vdp, a: Word, bus: Bus)
    requires v.Valid() && !v.pending
    ensures Run(v, Start(a, bus)) == RunDma(Started(v, a), bus)
  {
    var x, y := Control(0x4000 + a % 0x4000, bus), Control(0x80 + a / 0x4000, bus);
    var c := Do(v, x);
    FirstStarts(v, a, bus);
    SecondStarts(c, a, bus);
    assert Start(a, bus) == [x] + [y];
    RunFirst(v, x, [y]);
    RunOne(c, y);
    assert Started(c, a) == Started(v, a);
    hide Run, Do, RunDma;
  }

  /** What the registers of a program mean, in the values it writes. */
  function LengthOf(lo: Byte, hi: Byte): nat { (hi as int) * 0x100 + lo }

  function SourceOf(s0: Byte, s1: Byte, s2: Byte): nat {
    ((s2 as int) % 0x80 * 0x1_0000 + (s1 as int) * 0x100 + s0) * 2
  }

  lemma RegistersHold(reg: seq<Byte>, lo: Byte, hi: Byte, s0: Byte, s1: Byte, s2: Byte)
    requires |reg| == REGISTERS
    ensures var r := reg[15 := 2][0x13 := lo][0x14 := hi][0x15 := s0][0x16 := s1][0x17 := s2];
            r[15] == 2 && r[0x13] == lo && r[0x14] == hi && r[0x15] == s0 && r[0x16] == s1 && r[0x17] == s2
  {
  }

  lemma DmaRegisters(v: Vdp, lo: Byte, hi: Byte, s0: Byte, s1: Byte, s2: Byte)
    requires v.Valid() && v.reg[0x13] == lo && v.reg[0x14] == hi
    requires v.reg[0x15] == s0 && v.reg[0x16] == s1 && v.reg[0x17] == s2
    ensures DmaLength(v) == (hi as int) * 0x100 + lo
    ensures DmaSource(v) == ((s2 as int) % 0x80 * 0x1_0000 + (s1 as int) * 0x100 + s0) * 2
    ensures DmaMode(v) == s2 / 0x40
  {
  }

  /** The VDP as a program has set it up, when the DMA begins. */
  lemma Programmed(v: Vdp, lo: Byte, hi: Byte, s0: Byte, s1: Byte, s2: Byte, a: Word, bus: Bus) returns (c: Vdp)
    requires v.Valid() && !v.pending
    ensures Ready(c) && Run(v, Setup(lo, hi, s0, s1, s2, bus) + Start(a, bus)) == RunDma(c, bus)
    ensures DmaLength(c) == LengthOf(lo, hi) && DmaSource(c) == SourceOf(s0, s1, s2) && DmaMode(c) == s2 / 0x40
    ensures c.addr == Mirror(a) && c.dma && !c.pending
    ensures c.vram == v.vram && c.cram == v.cram && c.vsram == v.vsram
  {
    var u := Run(v, Setup(lo, hi, s0, s1, s2, bus));
    c := Started(u, a);
    hide Run, Setup, Start, RunDma, DmaLength, DmaSource, DmaMode, Mirror;
    SetupRuns(v, lo, hi, s0, s1, s2, bus);
    RegistersHold(v.reg, lo, hi, s0, s1, s2);
    StartRuns(u, a, bus);
    RunBoth(v, Setup(lo, hi, s0, s1, s2, bus), Start(a, bus));
    DmaRegisters(c, lo, hi, s0, s1, s2);
  }

  /** Distances do not see the mirrored half of the address. */
  lemma AtDistance(a: Word, o: nat)
    requires o < VRAM_SIZE
    ensures var x := ((a as int) + o) % VRAM_SIZE; Ahead(Mirror(a), x) == o
    ensures Mirror(a) % 2 == a % 2 && Mirror(a) % VRAM_SIZE == a
  {
    LowHalf(a);
    LowBits(Mirror(a), a);
  }

  lemma DmaFromBus(c: Vdp, bus: Bus)
    requires c.Valid() && DmaMode(c) <= 1
    ensures RunDma(c, bus) == CopyFromBus(c, bus, DmaSource(c), DmaLength(c))
  {
    hide CopyFromBus, DmaMode, DmaSource, DmaLength;
  }

  /** What a byte has to be moved by in a word that is put at an odd address. */
  function Turn(a: int, o: int): int { if a % 2 == 0 then 0 else if o % 2 == 0 then 1 else -1 }

  lemma BusIndex(a: int, s: nat, n: nat, o: nat)
    requires o < 2 * n
    ensures s + LastRound(o, n) + Side(a, o) == s + o + Turn(a, o) + (2 * n - 1 - o) / 0x1_0000 * 0x1_0000
    ensures n <= 0x8000 ==> (2 * n - 1 - o) / 0x1_0000 * 0x1_0000 == 0
  {
  }

  lemma BusCell(c: Vdp, bus: Bus, s: nat, n: nat, a: Word, o: nat)
    requires Ready(c) && c.addr == Mirror(a) && o < VRAM_SIZE
    ensures var x, r := ((a as int) + o) % VRAM_SIZE, CopyFromBus(c, bus, s, n);
            && c.Valid() && OnlyVram(c, r)
            && (o >= 2 * n ==> r.vram[x] == c.vram[x])
            && (o < 2 * n ==> r.vram[x] == bus.At(s + o + Turn(a, o) + (2 * n - 1 - o) / 0x1_0000 * 0x1_0000))
  {
    hide *;
    ReadyIsValid(c);
    AtDistance(a, o);
    DmaCopies(c, bus, s, n, ((a as int) + o) % VRAM_SIZE);
    CopyKeeps(c, bus, s, n);
    if o < 2 * n {
      BusIndex(Mirror(a), s, n, o);
      TurnOf(Mirror(a), a, o);
    }
  }

  lemma TurnOf(a: int, b: int, o: int)
    requires a % 2 == b % 2
    ensures Turn(a, o) == Turn(b, o)
  {
  }

  lemma Values(lo: Byte, hi: Byte, s0: Byte, s1: Byte, s2: Byte)
    ensures LengthOf(lo, hi) == (hi as int) * 0x100 + lo
    ensures s2 < 0x80 ==> SourceOf(s0, s1, s2) == ((s2 as int) * 0x1_0000 + (s1 as int) * 0x100 + s0) * 2
    ensures SourceOf(s0, s1, s2) % VRAM_SIZE == ((s1 as int) * 0x100 + s0) * 2 % 0x1_0000
    ensures s2 < 0x80 ==> s2 / 0x40 <= 1
  {
    LowSource(2 * ((s2 as int) % 0x80), (s1 as int) * 0x100 + s0);
  }

  lemma LowSource(k: int, t: int)
    ensures (k * 0x1_0000 + t * 2) % 0x1_0000 == t * 2 % 0x1_0000
  {
    Remainder(k * 0x1_0000 + t * 2, k + t * 2 / 0x1_0000, 0x1_0000, t * 2 % 0x1_0000);
  }

  lemma OthersKept(v: Vdp, c: Vdp, r: Vdp)
    requires c.vram == v.vram && c.cram == v.cram && c.vsram == v.vsram && OnlyVram(c, r)
    ensures r.cram == v.cram && r.vsram == v.vsram
  {
  }

  lemma MirrorIs(a: Word)
    ensures Mirror(a) % VRAM_SIZE == a
  {
    AtDistance(a, 0);
  }

  /** A DMA from the bus, from the words written to the ports to the bytes in VRAM: with length bytes lo and hi,
      source bytes s0 to s2 and a command for address a, the cell at distance o holds the byte o after the source; a
      longer copy than VRAM goes round, and at an odd address the bytes of each word are swapped. The rest stays as
      it was. */
  lemma BusDma(v: Vdp, lo: Byte, hi: Byte, s0: Byte, s1: Byte, s2: Byte, a: Word, bus: Bus, o: nat)
    requires v.Valid() && !v.pending && s2 < 0x80 && o < VRAM_SIZE
    ensures var r, x := Run(v, Setup(lo, hi, s0, s1, s2, bus) + Start(a, bus)), ((a as int) + o) % VRAM_SIZE;
            var n: int := (hi as int) * 0x100 + lo;
            var s: int := ((s2 as int) * 0x1_0000 + (s1 as int) * 0x100 + s0) * 2;
            && (o >= 2 * n ==> r.vram[x] == v.vram[x])
            && (o < 2 * n ==> r.vram[x] == bus.At(s + o + Turn(a, o) + (2 * n - 1 - o) / 0x1_0000 * 0x1_0000))
            && r.cram == v.cram && r.vsram == v.vsram
  {
    hide *;
    var c := Programmed(v, lo, hi, s0, s1, s2, a, bus);
    ReadyIsValid(c);
    Values(lo, hi, s0, s1, s2);
    DmaFromBus(c, bus);
    BusCell(c, bus, SourceOf(s0, s1, s2), LengthOf(lo, hi), a, o);
    OthersKept(v, c, RunDma(c, bus));
  }

  lemma DmaWaits(c: Vdp, bus: Bus)
    requires c.Valid() && DmaMode(c) == 2
    ensures RunDma(c, bus) == c
  {
    hide DmaMode;
  }

  lemma DataFills(c: Vdp, d: Word)
    requires c.Valid() && c.dma && DmaMode(c) == 2
    ensures Do(c, Data(d)) == FillWords(c, d, DmaLength(c)).(pending := false)
  {
    hide FillWords, DmaMode, DmaLength, PutWord;
  }

  lemma ByteFills(c: Vdp, b: Byte)
    requires c.Valid() && c.dma && DmaMode(c) == 2
    ensures Do(c, DataByte(b)) == FillBytes(c, b, DmaLength(c))
  {
    hide FillBytes, DmaMode, DmaLength, PutByte;
  }

  lemma NoLongerPending(v: Vdp, c: Vdp, r: Vdp, w: Vdp)
    requires c.vram == v.vram && c.cram == v.cram && c.vsram == v.vsram && OnlyVram(c, r)
    requires w == r.(pending := false)
    ensures w.vram == r.vram && w.cram == v.cram && w.vsram == v.vsram
  {
  }

  lemma FillMode(s2: Byte)
    requires 0x80 <= s2 < 0xc0
    ensures s2 / 0x40 == 2
  {
  }

  /** A fill: the command only arms it, and the word written to the data port after it goes to as many words of VRAM as
      the length registers say, its upper byte to the even addresses and its lower byte to the odd ones. */
  lemma FillDma(v: Vdp, lo: Byte, hi: Byte, s0: Byte, s1: Byte, s2: Byte, a: Word, bus: Bus, d: Word, o: nat)
    requires v.Valid() && !v.pending && 0x80 <= s2 < 0xc0 && o < VRAM_SIZE
    ensures var armed := Setup(lo, hi, s0, s1, s2, bus) + Start(a, bus);
            var r, x := Run(v, armed + [Data(d)]), ((a as int) + o) % VRAM_SIZE;
            var n: int := (hi as int) * 0x100 + lo;
            && Run(v, armed).vram == v.vram
            && r.vram[x] == (if o >= 2 * n then v.vram[x] else if x % 2 == 0 then d / 0x100 else d % 0x100)
            && r.cram == v.cram && r.vsram == v.vsram
  {
    hide *;
    var c := Programmed(v, lo, hi, s0, s1, s2, a, bus);
    var armed, n := Setup(lo, hi, s0, s1, s2, bus) + Start(a, bus), LengthOf(lo, hi);
    ReadyIsValid(c);
    Values(lo, hi, s0, s1, s2);
    FillMode(s2);
    DmaWaits(c, bus);
    RunBoth(v, armed, [Data(d)]);
    RunOne(c, Data(d));
    DataFills(c, d);
    AtDistance(a, o);
    FillCell(c, d, n, ((a as int) + o) % VRAM_SIZE);
    NoLongerPending(v, c, FillWords(c, d, n), Run(c, [Data(d)]));
  }

  /** A fill by a byte write: every other cell. */
  lemma FillByteDma(v: Vdp, lo: Byte, hi: Byte, s0: Byte, s1: Byte, s2: Byte, a: Word, bus: Bus, b: Byte, o: nat)
    requires v.Valid() && !v.pending && 0x80 <= s2 < 0xc0 && o < VRAM_SIZE
    ensures var r := Run(v, Setup(lo, hi, s0, s1, s2, bus) + Start(a, bus) + [DataByte(b)]);
            var n, x: int := (hi as int) * 0x100 + lo, ((a as int) + o) % VRAM_SIZE;
            && r.vram[x] == (if o < 2 * n && o % 2 == 0 then b else v.vram[x])
            && r.cram == v.cram && r.vsram == v.vsram
  {
    hide *;
    var c := Programmed(v, lo, hi, s0, s1, s2, a, bus);
    var armed, n := Setup(lo, hi, s0, s1, s2, bus) + Start(a, bus), LengthOf(lo, hi);
    ReadyIsValid(c);
    Values(lo, hi, s0, s1, s2);
    FillMode(s2);
    DmaWaits(c, bus);
    RunBoth(v, armed, [DataByte(b)]);
    RunOne(c, DataByte(b));
    ByteFills(c, b);
    AtDistance(a, o);
    FillByteCell(c, b, n, ((a as int) + o) % VRAM_SIZE);
    OthersKept(v, c, FillBytes(c, b, n));
  }

  lemma DmaInside(c: Vdp, bus: Bus)
    requires c.Valid() && DmaMode(c) == 3
    ensures RunDma(c, bus) == CopyFromVram(c, DmaSource(c), DmaLength(c))
  {
    hide CopyFromVram, DmaMode, DmaSource, DmaLength;
  }

  lemma CopyMode(s2: Byte, lo: Byte, hi: Byte)
    requires 0xc0 <= s2
    ensures s2 / 0x40 == 3 && LengthOf(lo, hi) < 0x1_0000
  {
  }

  /** A copy inside VRAM, for every length and both alignments of the destination. */
  lemma VramDma(v: Vdp, lo: Byte, hi: Byte, s0: Byte, s1: Byte, s2: Byte, a: Word, bus: Bus)
    requires v.Valid() && !v.pending && 0xc0 <= s2
    ensures |v.vram| == VRAM_SIZE
    ensures var r := Run(v, Setup(lo, hi, s0, s1, s2, bus) + Start(a, bus));
            var n, s: int := (hi as int) * 0x100 + lo, ((s1 as int) * 0x100 + s0) * 2 % 0x1_0000;
            && r.vram == (if n <= 0x8000 then Copied(v.vram, a, s, n)
                          else Copied(Copied(v.vram, a, s, 0x8000), a, s, n - 0x8000))
            && r.cram == v.cram && r.vsram == v.vsram
  {
    hide *;
    var c := Programmed(v, lo, hi, s0, s1, s2, a, bus);
    ReadyIsValid(c);
    Values(lo, hi, s0, s1, s2);
    CopyMode(s2, lo, hi);
    DmaInside(c, bus);
    MirrorIs(a);
    CopiesRound(c, SourceOf(s0, s1, s2), LengthOf(lo, hi));
    CopyMoves(c, SourceOf(s0, s1, s2), LengthOf(lo, hi));
    OthersKept(v, c, RunDma(c, bus));
  }

  lemma RepeatedCell(mem: seq<Byte>, a: int, s: int, n: nat, o: nat)
    requires |mem| == VRAM_SIZE && 0 <= a < VRAM_SIZE && 0 <= s < VRAM_SIZE && a % 2 == 0 && s % 2 == 0 && o < VRAM_SIZE
    ensures var x := (a + o) % VRAM_SIZE;
            Copied(mem, a, s, n)[x] == if o < 2 * n then mem[(s + o % Gap(a, s)) % VRAM_SIZE] else mem[x]
  {
    var x := (a + o) % VRAM_SIZE;
    hide Copied, CopiedByte, Gap;
    assert Ahead(a, x) == o;
    CopiedAt(mem, a, s, n, x);
    EvenCopyRepeats(mem, a, s, o);
  }

  lemma RepeatedDma(r: Vdp, v: Vdp, a: Word, s: int, n: nat, o: nat)
    requires |v.vram| == VRAM_SIZE && 0 <= s < VRAM_SIZE && s % 2 == 0 && a % 2 == 0 && o < VRAM_SIZE
    requires r.vram == Copied(v.vram, a, s, n)
    ensures var d, x := (if a > s then a - s else a - s + 0x1_0000), ((a as int) + o) % VRAM_SIZE;
            d > 0 && r.vram[x] == if o < 2 * n then v.vram[(s + o % d) % VRAM_SIZE] else v.vram[x]
  {
    RepeatedCell(v.vram, a, s, n, o);
    hide Copied;
  }

  /** In plain terms, for an even destination and no more words than VRAM holds: the bytes from the source on, over
      and over where the destination lies less than the length ahead of it. */
  lemma VramDmaRepeats(v: Vdp, lo: Byte, hi: Byte, s0: Byte, s1: Byte, s2: Byte, a: Word, bus: Bus, o: nat)
    requires v.Valid() && !v.pending && 0xc0 <= s2 && a % 2 == 0 && o < VRAM_SIZE
    requires (hi as int) * 0x100 + lo <= 0x8000
    ensures var r, x := Run(v, Setup(lo, hi, s0, s1, s2, bus) + Start(a, bus)), ((a as int) + o) % VRAM_SIZE;
            var n, s: int := (hi as int) * 0x100 + lo, ((s1 as int) * 0x100 + s0) * 2 % 0x1_0000;
            var d := if a > s then a - s else a - s + 0x1_0000;
            r.vram[x] == if o < 2 * n then v.vram[(s + o % d) % VRAM_SIZE] else v.vram[x]
  {
    hide *;
    var n, s: int := (hi as int) * 0x100 + lo, ((s1 as int) * 0x100 + s0) * 2 % 0x1_0000;
    VramDma(v, lo, hi, s0, s1, s2, a, bus);
    SourceIsEven(s0, s1);
    RepeatedDma(Run(v, Setup(lo, hi, s0, s1, s2, bus) + Start(a, bus)), v, a, s, n, o);
  }

  lemma SourceIsEven(s0: Byte, s1: Byte)
    ensures var s := ((s1 as int) * 0x100 + s0) * 2 % 0x1_0000; 0 <= s < VRAM_SIZE && s % 2 == 0
  {
    Twofold((s1 as int) * 0x100 + s0);
  }

  lemma Twofold(t: int)
    ensures t * 2 % 0x1_0000 % 2 == 0
  {
    Narrow(t * 2, 0x8000, 2);
    Remainder(t * 2, t, 2, 0);
  }

  // ---------------------------------------------------------------------- single writes

  /** A byte written through the ports goes to the one cell of the memory that the command names, at any address. */
  lemma ByteSent(v: Vdp, code: nat, a: Word, b: Byte, bus: Bus)
    requires v.Valid() && !v.pending && (code == VRAM_WRITE || code == CRAM_WRITE || code == VSRAM_WRITE)
    ensures var w := Do(Aim(v, code, a, bus), DataByte(b));
            && w.vram == (if code == VRAM_WRITE then v.vram[a := b] else v.vram)
            && w.cram == (if code == CRAM_WRITE then v.cram[a % CRAM_SIZE := b] else v.cram)
            && w.vsram == (if code == VSRAM_WRITE then v.vsram[a % VSRAM_SIZE := b] else v.vsram)
            && w.reg == v.reg && w.addr == (Mirror(a) + v.reg[15]) % 0x1_0000_0000
  {
    hide *;
    CodeOf(code);
    AimSets(v, code, a, bus);
    var c := Aim(v, code, a, bus);
    CodesDiffer();
    ByteStep(c, b);
    MirrorPlaces(a);
    SameMemories(v, c);
  }

  lemma CodesDiffer()
    ensures WRITE_VRAM != WRITE_CRAM && WRITE_CRAM != WRITE_VSRAM && WRITE_VRAM != WRITE_VSRAM
    ensures VRAM_WRITE != CRAM_WRITE && CRAM_WRITE != VSRAM_WRITE && VRAM_WRITE != VSRAM_WRITE
  {
  }

  lemma SameMemories(v: Vdp, c: Vdp)
    requires v.Valid() && c.vram == v.vram && c.cram == v.cram && c.vsram == v.vsram && c.reg == v.reg
    ensures |v.vram| == VRAM_SIZE && |v.cram| == CRAM_SIZE && |v.vsram| == VSRAM_SIZE && |v.reg| > 15
  {
  }

  lemma MirrorPlaces(a: Word)
    ensures Mirror(a) % VRAM_SIZE == a && Mirror(a) % CRAM_SIZE == a % CRAM_SIZE
    ensures Mirror(a) % VSRAM_SIZE == a % VSRAM_SIZE
  {
    Mirrored(a);
  }

  lemma ByteStep(c: Vdp, b: Byte)
    requires c.Valid() && !c.dma
    ensures var w := Do(c, DataByte(b));
            && w.vram == (if c.mode == WRITE_VRAM then c.vram[c.addr % VRAM_SIZE := b] else c.vram)
            && w.cram == (if c.mode == WRITE_CRAM then c.cram[c.addr % CRAM_SIZE := b] else c.cram)
            && w.vsram == (if c.mode == WRITE_VSRAM then c.vsram[c.addr % VSRAM_SIZE := b] else c.vsram)
            && w.reg == c.reg && w.addr == (c.addr + c.reg[15]) % 0x1_0000_0000
  {
    OnePoke(c, b);
    hide PokeOne, FillBytes, DmaMode;
  }

  lemma OnePoke(c: Vdp, b: Byte)
    requires c.Valid()
    ensures var w := PokeOne(c, b);
            && w.vram == (if c.mode == WRITE_VRAM then c.vram[c.addr % VRAM_SIZE := b] else c.vram)
            && w.cram == (if c.mode == WRITE_CRAM then c.cram[c.addr % CRAM_SIZE := b] else c.cram)
            && w.vsram == (if c.mode == WRITE_VSRAM then c.vsram[c.addr % VSRAM_SIZE := b] else c.vsram)
            && w.reg == c.reg && w.addr == c.addr
  {
    CodesDiffer();
    PokeVramExactly(c, c.addr, b, 0);
    PokeCramExactly(c, c.addr, b, 0);
    PokeVsramExactly(c, c.addr, b, 0);
    hide PokeVram, PokeCram, PokeVsram, Bit, WRITE_VRAM, WRITE_CRAM, WRITE_VSRAM;
  }

  lemma DataIsLost(r: Vdp, d: Word)
    requires r.Valid() && r.dma && DmaMode(r) != 2
    ensures Do(r, Data(d)) == r.(pending := false)
  {
    hide DmaMode, FillWords, PutWord;
  }

  lemma SameMode(c: Vdp, r: Vdp)
    requires c.Valid() && OnlyVram(c, r) && r.Valid()
    ensures DmaMode(r) == DmaMode(c) && r.dma == c.dma && r.pending == c.pending
  {
  }

  /** Until the next command a data write after a finished copy writes nothing. */
  lemma DataAfterCopy(v: Vdp, lo: Byte, hi: Byte, s0: Byte, s1: Byte, s2: Byte, a: Word, bus: Bus, d: Word)
    requires v.Valid() && !v.pending && (s2 < 0x80 || s2 >= 0xc0)
    ensures var copied := Setup(lo, hi, s0, s1, s2, bus) + Start(a, bus);
            Run(v, copied + [Data(d)]) == Run(v, copied)
  {
    hide *;
    var copied := Setup(lo, hi, s0, s1, s2, bus) + Start(a, bus);
    var c := Programmed(v, lo, hi, s0, s1, s2, a, bus);
    ReadyIsValid(c);
    Values(lo, hi, s0, s1, s2);
    if s2 < 0x80 {
      DmaFromBus(c, bus);
      CopyKeeps(c, bus, SourceOf(s0, s1, s2), LengthOf(lo, hi));
    } else {
      CopyMode(s2, lo, hi);
      DmaInside(c, bus);
      CopyMoves(c, SourceOf(s0, s1, s2), LengthOf(lo, hi));
    }
    var r := RunDma(c, bus);
    SameMode(c, r);
    RunBoth(v, copied, [Data(d)]);
    RunOne(r, Data(d));
    DataIsLost(r, d);
    NotPending(r);
  }

  lemma NotPending(r: Vdp)
    requires !r.pending
    ensures r.(pending := false) == r
  {
  }
}
