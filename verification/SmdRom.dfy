/** Super Magic Drive images (romload.c): 512 bytes of header, then 16 KB chunks that hold the odd bytes of
    the program first and the even bytes second. They are decoded in place, over the header. */
module SmdRom {
  import opened MachineWords

  const HEADER := 0x200
  const CHUNK := 0x4000
  const HALF := 0x2000

  /** Where byte i of the decoded program sits in the image. */
  function Source(i: int): int {
    HEADER + i / CHUNK * CHUNK + (if i % 2 == 0 then HALF else 0) + i % CHUNK / 2
  }

  /** Where byte i of the image body (header not counted) sits in the decoded program. */
  function Target(i: int): int {
    i / CHUNK * CHUNK + if i % CHUNK < HALF then i % CHUNK * 2 + 1 else (i % CHUNK - HALF) * 2
  }

  predicate IsImage(length: int) { length >= HEADER && (length - HEADER) % CHUNK == 0 }

  function Decode(image: seq<Byte>): (program: seq<Byte>)
    requires IsImage(|image|)
    ensures |program| == |image| - HEADER
  {
    seq(|image| - HEADER, i requires 0 <= i < |image| - HEADER => SourceInRange(i, |image|); image[Source(i)])
  }

  function Encode(program: seq<Byte>): (body: seq<Byte>)
    requires |program| % CHUNK == 0
    ensures |body| == |program|
  {
    seq(|program|, i requires 0 <= i < |program| => TargetInRange(i, |program|); program[Target(i)])
  }

  lemma SourceInRange(i: int, length: int)
    requires 0 <= i < length - HEADER && (length - HEADER) % CHUNK == 0
    ensures HEADER <= Source(i) < length
  {
  }

  lemma TargetInRange(i: int, length: int)
    requires 0 <= i < length && length % CHUNK == 0
    ensures 0 <= Target(i) < length
  {
  }

  lemma Inverses(i: int)
    requires 0 <= i
    ensures Target(Source(i) - HEADER) == i && Source(Target(i)) == i + HEADER
  {
    hide Source, Target;
    var k, j := i / CHUNK, i % CHUNK;
    InverseAt(k, j);
    assert i == k * CHUNK + j;
  }

  lemma InverseAt(k: int, j: int)
    requires 0 <= j < CHUNK
    ensures Target(Source(k * CHUNK + j) - HEADER) == k * CHUNK + j
    ensures Source(Target(k * CHUNK + j)) == k * CHUNK + j + HEADER
  {
    Halves(j);
    hide *;
    AtChunk(k, j);
    AtChunk(k, Woven(j));
    AtChunk(k, Split(j));
  }

  /** The same two maps inside one chunk. */
  function Split(j: int): int { (if j % 2 == 0 then HALF else 0) + j / 2 }

  function Woven(j: int): int { if j < HALF then j * 2 + 1 else (j - HALF) * 2 }

  lemma Halves(j: int)
    requires 0 <= j < CHUNK
    ensures 0 <= Split(j) < CHUNK && Woven(Split(j)) == j
    ensures 0 <= Woven(j) < CHUNK && Split(Woven(j)) == j
  {
  }

  /** Both maps take chunks to chunks. */
  lemma AtChunk(k: int, j: int)
    requires 0 <= j < CHUNK
    ensures (k * CHUNK + j) / CHUNK == k && (k * CHUNK + j) % CHUNK == j
    ensures Source(k * CHUNK + j) == HEADER + k * CHUNK + Split(j) && Target(k * CHUNK + j) == k * CHUNK + Woven(j)
  {
    Remainder(k * CHUNK + j, k, CHUNK, j);
    SameParity(k, j);
    hide *;
    assert (k * CHUNK + j) % 2 == j % 2;
  }

  lemma SameParity(k: int, j: int)
    ensures (k * CHUNK + j) % 2 == j % 2
  {
    Remainder(k * CHUNK + j, k * HALF + j / 2, 2, j % 2);
  }

  /** Decoding an image built from a program, under any header, gives the program back. */
  lemma DecodeInvertsEncode(header: seq<Byte>, program: seq<Byte>)
    requires |header| == HEADER && |program| % CHUNK == 0
    ensures Decode(header + Encode(program)) == program
  {
    var image := header + Encode(program);
    forall i | 0 <= i < |program| ensures Decode(image)[i] == program[i] {
      SourceInRange(i, |image|);
      Inverses(i);
      hide Source, Target;
    }
  }

  /** No two different bodies decode alike: the body of an image can be rebuilt from what it decodes to. */
  lemma EncodeInvertsDecode(image: seq<Byte>)
    requires IsImage(|image|)
    ensures Encode(Decode(image)) == image[HEADER..]
  {
    var program := Decode(image);
    forall i | 0 <= i < |program| ensures Encode(program)[i] == image[HEADER..][i] {
      TargetInRange(i, |program|);
      Inverses(i);
      hide Source, Target;
    }
  }

  lemma SourceOf(k: int, i: int)
    requires 0 <= i < HALF
    ensures Source(k * CHUNK + 2 * i) == HEADER + k * CHUNK + HALF + i
    ensures Source(k * CHUNK + 2 * i + 1) == HEADER + k * CHUNK + i
  {
    AtChunk(k, 2 * i);
    AtChunk(k, 2 * i + 1);
    hide Source, Target;
  }

  /** The first n bytes of the decoded program are in place, and nothing behind them has been touched. */
  ghost predicate Progress(was: seq<Byte>, now: seq<Byte>, n: int)
    requires IsImage(|was|) && 0 <= n <= |was| - HEADER
  {
    && |now| == |was|
    && (forall i :: 0 <= i < n ==> now[i] == Decode(was)[i])
    && (forall i :: n <= i < |was| ==> now[i] == was[i])
  }

  /** One chunk: the odd bytes are set aside, then both halves are woven together over what came before. */
  method DeinterleaveChunk(rom: array<Byte>, ghost was: seq<Byte>, ghost k: nat, dst0: nat, src0: nat)
    returns (dst: nat, src: nat)
    requires |was| == rom.Length && IsImage(|was|) && (k + 1) * CHUNK <= |was| - HEADER
    requires dst0 == k * CHUNK && src0 == HEADER + k * CHUNK
    requires Progress(was, rom[..], k * CHUNK)
    modifies rom
    ensures dst == dst0 + CHUNK && src == src0 + CHUNK
    ensures Progress(was, rom[..], (k + 1) * CHUNK)
  {
    hide Decode, IsImage, Progress;
    Untouched(was, rom[..], k);
    var tmp := rom[src0..src0 + HALF];
    dst, src := dst0, src0 + HALF;
    var i := 0;
    while i != HALF
      invariant 0 <= i <= HALF && dst == dst0 + 2 * i && src == src0 + HALF + i
      invariant Progress(was, rom[..], dst)
      decreases HALF - i
    {
      DecodedPair(was, k, i);
      WeavePair(rom, was, dst, src, tmp[i]);
      dst, src := dst + 2, src + 1;
      i := i + 1;
    }
  }

  lemma Untouched(was: seq<Byte>, now: seq<Byte>, k: nat)
    requires IsImage(|was|) && (k + 1) * CHUNK <= |was| - HEADER && Progress(was, now, k * CHUNK)
    ensures |now| == |was|
    ensures now[HEADER + k * CHUNK..HEADER + k * CHUNK + HALF] == was[HEADER + k * CHUNK..HEADER + k * CHUNK + HALF]
  {
    hide Decode, IsImage;
  }

  /** One even byte from the source pointer and one odd byte that was set aside. */
  method WeavePair(rom: array<Byte>, ghost was: seq<Byte>, dst: nat, src: nat, odd: Byte)
    requires |was| == rom.Length && IsImage(|was|) && dst + 2 <= |was| - HEADER && dst < src < |was|
    requires Progress(was, rom[..], dst) && Decode(was)[dst] == was[src] && Decode(was)[dst + 1] == odd
    modifies rom
    ensures Progress(was, rom[..], dst + 2)
  {
    hide Decode, IsImage;
    rom[dst] := rom[src];
    rom[dst + 1] := odd;
  }

  lemma DecodedPair(was: seq<Byte>, k: nat, i: int)
    requires IsImage(|was|) && (k + 1) * CHUNK <= |was| - HEADER && 0 <= i < HALF
    ensures Decode(was)[k * CHUNK + 2 * i] == was[HEADER + k * CHUNK + HALF + i]
    ensures Decode(was)[k * CHUNK + 2 * i + 1] == was[HEADER + k * CHUNK + i]
  {
    SourceOf(k, i);
    hide Source;
  }

  datatype Load = Loaded(size: int) | Rejected

  predicate HasSega(rom: seq<Byte>)
    requires |rom| >= 0x104
  {
    rom[0x100..0x104] == ['S' as int, 'E' as int, 'G' as int, 'A' as int]
  }

  /** Accepts a plain image as it is and an interleaved one by decoding it in place. The overlapping rewrite never
      reads a byte it has already overwritten; the last 512 bytes keep what they held. */
  method LoadRom(rom: array<Byte>) returns (r: Load)
    modifies rom
    ensures old(rom[..]) != rom[..] ==>
              rom.Length >= HEADER && !HasSega(old(rom[..])) && (rom.Length - HEADER) % CHUNK == 0
    ensures r.Loaded? <==>
            rom.Length >= HEADER &&
            (HasSega(old(rom[..])) ||
             ((rom.Length - HEADER) % CHUNK == 0 && HasSega(rom[..])))
    ensures rom.Length >= HEADER && HasSega(old(rom[..])) ==> r == Loaded(rom.Length) && rom[..] == old(rom[..])
    ensures rom.Length >= HEADER && !HasSega(old(rom[..])) && (rom.Length - HEADER) % CHUNK == 0 ==>
              && rom[..rom.Length - HEADER] == Decode(old(rom[..]))
              && rom[rom.Length - HEADER..] == old(rom[rom.Length - HEADER..])
              && (r.Loaded? ==> r.size == rom.Length - HEADER)
  {
    if rom.Length < HEADER { return Rejected; }
    if HasSega(rom[..]) { return Loaded(rom.Length); }
    var chunks := (rom.Length - HEADER) / CHUNK;
    if (rom.Length - HEADER) % CHUNK != 0 { return Rejected; }
    ghost var was := rom[..];
    Deinterleave(rom, chunks);
    if !HasSega(rom[..]) { return Rejected; }
    r := Loaded(rom.Length - HEADER);
  }

  /** All chunks, each written over what came before it. */
  method Deinterleave(rom: array<Byte>, chunks0: nat)
    requires rom.Length == HEADER + chunks0 * CHUNK
    modifies rom
    ensures rom[..rom.Length - HEADER] == Decode(old(rom[..]))
    ensures rom[rom.Length - HEADER..] == old(rom[rom.Length - HEADER..])
  {
    ghost var was := rom[..];
    ChunksAreAnImage(chunks0);
    NothingYet(was);
    hide *;
    var dst, src, chunks := 0, HEADER, chunks0;
    while chunks > 0
      invariant 0 <= chunks <= chunks0
      invariant dst == (chunks0 - chunks) * CHUNK && src == HEADER + dst
      invariant Progress(was, rom[..], dst)
    {
      dst, src := DeinterleaveChunk(rom, was, chunks0 - chunks, dst, src);
      chunks := chunks - 1;
    }
    AllDone(was, rom[..]);
  }

  lemma ChunksAreAnImage(n: nat)
    ensures IsImage(HEADER + n * CHUNK)
  {
    Remainder(n * CHUNK, n, CHUNK, 0);
  }

  lemma NothingYet(was: seq<Byte>)
    requires IsImage(|was|)
    ensures Progress(was, was, 0)
  {
    hide Decode;
  }

  lemma AllDone(was: seq<Byte>, now: seq<Byte>)
    requires IsImage(|was|) && Progress(was, now, |was| - HEADER)
    ensures |now| == |was| && now[..|was| - HEADER] == Decode(was) && now[|was| - HEADER..] == was[|was| - HEADER..]
  {
    hide Decode;
  }
}
