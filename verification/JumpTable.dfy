/** The compressed opcode jump table of the Cyclone generator (cyclone/Main.cpp): the compressor that
    prints handler table and control words, and the decompressor it emits. Both work on one memory: the handlers
    are kept where the a-line block of the table will be, and the control words from entry 0xe000 on, where the
    table runs over them while they are being read. */
module JumpTable {
  import opened MachineWords

  const SIZE := 0x1_0000
  const ALINE := 0xa000
  const FLINE := 0xf000
  const BLOCK := 0x1000

  /** The entry at which the control words start. */
  const CONTROL := 0xe000

  /** An entry of the handler table; `Zero` is the padding value, which tells the decompressor to skip. */
  datatype Handler = Zero | Unrecognised | ALineHandler | FLineHandler | Op(code: int)

  /** The generator's table: opcodes, or -1, -2 and -3 for unrecognised, a-line and f-line entries. */
  ghost predicate Layout(t: seq<int>) {
    && |t| == SIZE
    && forall i :: 0 <= i < SIZE ==>
         && (t[i] == -2 <==> ALINE <= i < ALINE + BLOCK) && (t[i] == -3 <==> FLINE <= i)
         && -3 <= t[i] < SIZE
  }

  /** What the decompressed table must hold. */
  function Ideal(op: int): Handler {
    if op == -1 then Unrecognised else if op == -2 then ALineHandler else if op == -3 then FLineHandler else Op(op)
  }

  /** What the control words say about an entry below the f-line block: a-line entries are skipped. */
  function CellOf(op: int): Handler {
    if op == -2 then Zero else Ideal(op)
  }

  /** The opcodes among the first n entries. */
  function Opcodes(t: seq<int>, n: nat): set<int>
    requires n <= |t|
  {
    set x | x in t[..n] && x >= 0
  }

  /** How many handlers a table needs: the three fixed ones and one for every distinct opcode. */
  function HandlerCount(t: seq<int>): nat { 3 + |Opcodes(t, |t|)| }

  /** How far the run of equal entries that starts at entry i reaches. */
  function RunFrom(t: seq<int>, i: nat): (reps: nat)
    requires i < FLINE <= |t|
    ensures 1 <= reps <= FLINE - i
    decreases FLINE - i
  {
    if i + 1 < FLINE && t[i + 1] == t[i] then 1 + RunFrom(t, i + 1) else 1
  }

  function WordsOfRun(reps: nat): nat { if reps <= 0xe || reps == 0x10 then 1 else 2 }

  /** How many control words the maximal runs from entry i up to the f-line block take. */
  function WordsFrom(t: seq<int>, i: nat): nat
    requires i <= FLINE <= |t|
    decreases FLINE - i
  {
    if i == FLINE then 0 else WordsOfRun(RunFrom(t, i)) + WordsFrom(t, i + RunFrom(t, i))
  }

  function WordCount(t: seq<int>): nat
    requires FLINE <= |t|
  {
    WordsFrom(t, 0)
  }

  /** A run is as long as it is said to be when it is constant and cannot be extended. */
  lemma {:induction false} RunIsMaximal(t: seq<int>, i: nat, reps: nat)
    requires FLINE <= |t| && 1 <= reps && i + reps <= FLINE
    requires forall j :: i <= j < i + reps ==> t[j] == t[i]
    requires i + reps < FLINE ==> t[i + reps] != t[i]
    ensures RunFrom(t, i) == reps
    decreases reps
  {
    if reps > 1 {
      assert t[i + 1] == t[i];
      RunIsMaximal(t, i + 1, reps - 1);
    }
  }

  // ---------------------------------------------------------------- handler table

  /** Every opcode of the first n entries has its handler at its index, and no handler is listed twice. */
  ghost predicate Indexed(t: seq<int>, n: int, handlers: seq<Handler>, indexes: seq<int>)
    requires n <= |t|
  {
    && |indexes| == SIZE && |handlers| >= 3
    && handlers[0] == Unrecognised && handlers[1] == ALineHandler && handlers[2] == FLineHandler
    && (forall j :: 0 <= j < n && 0 <= t[j] < SIZE ==>
          3 <= indexes[t[j]] < |handlers| && handlers[indexes[t[j]]] == Op(t[j]))
  }

  /** Only opcodes seen in the first n entries are listed, each once. */
  ghost predicate NothingExtra(t: seq<int>, n: int, handlers: seq<Handler>)
    requires 0 <= n <= |t|
  {
    && (forall j :: 3 <= j < |handlers| ==> handlers[j].Op? && handlers[j].code in t[..n])
    && (forall j, k :: 3 <= j < k < |handlers| ==> handlers[j] != handlers[k])
  }

  lemma PrefixMember(t: seq<int>, n: nat, x: int)
    requires n < |t|
    ensures x in t[..n + 1] <==> x in t[..n] || x == t[n]
  {
    assert t[..n + 1] == t[..n] + [t[n]];
  }

  method CollectHandlers(t: seq<int>) returns (handlers: seq<Handler>, indexes: array<int>)
    requires Layout(t)
    ensures |t| == indexes.Length == SIZE && |handlers| == HandlerCount(t)
    ensures Indexed(t, |t|, handlers, indexes[..]) && NothingExtra(t, |t|, handlers)
  {
    indexes := new int[SIZE](_ => 0);
    handlers := [Unrecognised, ALineHandler, FLineHandler];
    NothingCollected(t, indexes[..]);
    hide Indexed, NothingExtra, Opcodes, Collected;
    for i := 0 to SIZE
      invariant indexes.Length == SIZE && Collected(t, i, handlers, indexes[..])
    {
      var op := t[i];
      var done := AlreadyDone(t, i);
      ghost var before, was := handlers, indexes[..];
      if !done && op >= 0 {
        indexes[op] := |handlers|;
        handlers := handlers + [Op(op)];
        NewHandler(t, i, before, was, handlers, indexes[..]);
      } else {
        KnownHandler(t, i, handlers, indexes[..]);
      }
    }
    AllCollected(t, handlers, indexes[..]);
  }

  ghost predicate Collected(t: seq<int>, i: nat, handlers: seq<Handler>, indexes: seq<int>)
    requires i <= |t|
  {
    Indexed(t, i, handlers, indexes) && NothingExtra(t, i, handlers) && |handlers| == 3 + |Opcodes(t, i)|
  }

  lemma NothingCollected(t: seq<int>, indexes: seq<int>)
    requires |indexes| == SIZE
    ensures Collected(t, 0, [Unrecognised, ALineHandler, FLineHandler], indexes)
  {
  }

  lemma AllCollected(t: seq<int>, handlers: seq<Handler>, indexes: seq<int>)
    requires Collected(t, |t|, handlers, indexes)
    ensures Indexed(t, |t|, handlers, indexes) && NothingExtra(t, |t|, handlers) && |handlers| == HandlerCount(t)
  {
    hide Indexed, NothingExtra, Opcodes;
  }

  lemma NextOpcode(t: seq<int>, i: nat)
    requires i < |t|
    ensures |Opcodes(t, i + 1)| == |Opcodes(t, i)| + if t[i] >= 0 && t[i] !in t[..i] then 1 else 0
  {
    assert t[..i + 1] == t[..i] + [t[i]];
    assert Opcodes(t, i + 1) == if t[i] >= 0 then Opcodes(t, i) + {t[i]} else Opcodes(t, i);
  }

  lemma NewHandler(t: seq<int>, i: nat, handlers: seq<Handler>, indexes: seq<int>, handlers': seq<Handler>,
      indexes': seq<int>)
    requires i < |t| && 0 <= t[i] < SIZE == |indexes| && t[i] !in t[..i] && Collected(t, i, handlers, indexes)
    requires handlers' == handlers + [Op(t[i])] && indexes' == indexes[t[i] := |handlers|]
    ensures Collected(t, i + 1, handlers', indexes')
  {
    hide Opcodes;
    NextOpcode(t, i);
    forall j | 0 <= j < i && 0 <= t[j] < SIZE
      ensures 3 <= indexes'[t[j]] < |handlers'| && handlers'[indexes'[t[j]]] == Op(t[j])
    {
      assert t[j] == t[..i][j];
    }
    forall j | 3 <= j < |handlers'| ensures handlers'[j].Op? && handlers'[j].code in t[..i + 1] {
      PrefixMember(t, i, if j < |handlers| then handlers[j].code else t[i]);
    }
  }

  lemma KnownHandler(t: seq<int>, i: nat, handlers: seq<Handler>, indexes: seq<int>)
    requires i < |t| && (t[i] in t[..i] || t[i] < 0) && Collected(t, i, handlers, indexes)
    ensures Collected(t, i + 1, handlers, indexes)
  {
    hide Opcodes;
    NextOpcode(t, i);
    if t[i] >= 0 {
      var j :| 0 <= j < i && t[..i][j] == t[i];
      assert t[j] == t[i];
    }
    forall j | 3 <= j < |handlers| ensures handlers[j].code in t[..i + 1] {
      PrefixMember(t, i, handlers[j].code);
    }
  }

  /** The backwards search for an earlier entry with the same opcode. */
  method AlreadyDone(t: seq<int>, i: nat) returns (found: bool)
    requires i < |t|
    ensures found <==> t[i] in t[..i]
  {
    var u := i - 1;
    while u >= 0
      invariant -1 <= u < i
      invariant forall j :: u < j < i ==> t[j] != t[i]
    {
      if t[i] == t[u] {
        assert t[..i][u] == t[i];
        return true;
      }
      u := u - 1;
    }
    return false;
  }

  /** The handler table as printed: zero beyond its end. */
  function HandlerAt(handlers: seq<Handler>, x: int): Handler {
    if 0 <= x < |handlers| then handlers[x] else Zero
  }

  // --------------------------------------------------------------- control words

  /** A run of `reps` entries with the handler at index x, of which a control word holds twelve bits. */
  datatype Run = Run(x: int, reps: int) {
    predicate Fits() { 0 <= x < BLOCK && 1 <= reps < 0x1_0000 }
  }

  /** One word with the count in its low nibble, where 15 means 16; a zero nibble puts the count into
      a second word. */
  function RunWords(r: Run): (w: seq<Word>)
    requires r.Fits()
    ensures |w| == WordsOfRun(r.reps)
  {
    if r.reps == 0x10 then [r.x * 16 + 0xf]
    else if r.reps <= 0xe then [r.x * 16 + r.reps]
    else [r.x * 16, r.reps]
  }

  /** The index the control words use for an entry below the f-line block. */
  function IndexOf(op: int, indexes: seq<int>, count: int): int
    requires |indexes| == SIZE && op < SIZE
  {
    if op == -2 then count else if op >= 0 then indexes[op] else 0
  }

  /** The maximal run that starts at entry i; only the low twelve bits of an index get into a word of 16 bits. */
  ghost function RunAt(t: seq<int>, indexes: seq<int>, count: nat, i: nat): (r: Run)
    requires Layout(t) && |indexes| == SIZE && i < FLINE
    ensures r.Fits() && r.reps == RunFrom(t, i)
  {
    Run(IndexOf(t[i], indexes, count) % BLOCK, RunFrom(t, i))
  }

  /** The control words from entry i up to the f-line block. */
  ghost function Stream(t: seq<int>, indexes: seq<int>, count: nat, i: nat): (w: seq<Word>)
    requires Layout(t) && |indexes| == SIZE && i <= FLINE
    ensures |w| == WordsFrom(t, i)
    decreases FLINE - i
  {
    if i == FLINE then [] else RunWords(RunAt(t, indexes, count, i)) + Stream(t, indexes, count, i + RunFrom(t, i))
  }

  lemma {:induction false} RunIsConstant(t: seq<int>, i: nat, j: nat)
    requires i < FLINE <= |t| && i <= j < i + RunFrom(t, i)
    ensures t[j] == t[i]
    decreases FLINE - i
  {
    if j > i { RunIsConstant(t, i + 1, j); }
  }

  /** The boundaries of the a-line block are boundaries of runs. */
  predicate Outside(i: nat) { i <= ALINE || ALINE + BLOCK <= i }

  lemma RunStaysOutside(t: seq<int>, i: nat)
    requires Layout(t) && i < FLINE && Outside(i)
    ensures Outside(i + RunFrom(t, i)) && (i < ALINE ==> i + RunFrom(t, i) <= ALINE)
    ensures i == ALINE ==> RunFrom(t, i) == BLOCK
  {
    if i == ALINE {
      ALineRun(t);
    } else if i < ALINE < i + RunFrom(t, i) {
      RunIsConstant(t, i, ALINE);
      assert false;
    }
    hide RunFrom;
  }

  lemma ALineRun(t: seq<int>)
    requires Layout(t)
    ensures RunFrom(t, ALINE) == BLOCK && WordsOfRun(BLOCK) == 2
  {
    assert t[ALINE] == -2 && t[ALINE + BLOCK] != -2;
    RunIsMaximal(t, ALINE, BLOCK);
  }

  function Zeros(n: nat): seq<Word> { seq(n, _ => 0) }

  /** The padding printed after `ip` control words: up to a whole line of eight, then zero lines up to the end of
      the control area, if any of it is left. */
  function Padding(ip: nat): nat {
    var even := ip + ip % 2;
    (even - ip) + (if even % 8 == 0 then 0 else 8 - even % 8) + 16 * ZeroLines(even)
  }

  /** The source's line count, with its division truncating towards zero. */
  function ZeroLines(ip: nat): nat {
    var left := 0x2000 - ip / 2;
    var lines := (if left >= 0 then left / 8 else -(-left / 8)) + 1;
    if lines > 0 then lines else 0
  }

  lemma LinesLeft(even: nat)
    ensures ZeroLines(even) > 0 <==> even / 2 < 0x2008
  {
  }

  lemma Parity(ip: nat)
    ensures ip % 2 == ip % 8 % 2 && (ip + ip % 2) % 8 == (ip % 8 + ip % 8 % 2) % 8
    ensures (ip + ip % 2) / 2 < 0x2008 <==> ip < 0x400f
  {
    var q, m := ip / 8, ip % 8;
    assert ip == 8 * q + m;
    assert ip % 2 == m % 2;
    assert m in {0, 1, 2, 3, 4, 5, 6, 7};
  }

  /** When the padding supplies the end marker. */
  lemma PaddingTerminates(ip: nat)
    ensures Padding(ip) >= 2 <==> ip < 0x400f || 1 <= ip % 8 <= 6
  {
    LinesLeft(ip + ip % 2);
    Parity(ip);
    hide ZeroLines;
  }

  /** The control words end at a whole line, and fill at least their area. */
  lemma PaddedLength(n: nat)
    ensures (n + Padding(n)) % 2 == 0 && n + Padding(n) >= 2 * (SIZE - CONTROL)
  {
  }

  // ------------------------------------------------------------------ compressor

  /** How far a run of equal entries reaches. */
  method RunLength(t: seq<int>, i0: nat) returns (reps: nat)
    requires Layout(t) && i0 < FLINE && t[i0] != -2
    ensures 1 <= reps && i0 + reps <= FLINE
    ensures forall j :: i0 <= j < i0 + reps ==> t[j] == t[i0]
    ensures (i0 + reps <= ALINE || ALINE + BLOCK <= i0) && reps == RunFrom(t, i0)
  {
    var i, op := i0, t[i0];
    reps := 1;
    while i < FLINE
      invariant i0 <= i < FLINE && reps == i - i0 + 1
      invariant forall j :: i0 <= j <= i ==> t[j] == op
      decreases FLINE - i
    {
      if op != t[i + 1] { break; }
      i := i + 1;
      reps := reps + 1;
    }
    assert t[ALINE] != op;
    RunIsMaximal(t, i0, reps);
  }

  /** The one or two words of the run that starts at entry i. */
  method PrintRun(t: seq<int>, count: nat, indexes: array<int>, i: nat) returns (w: seq<Word>, reps: nat)
    requires Layout(t) && indexes.Length == SIZE && i < FLINE && Outside(i)
    ensures reps == RunFrom(t, i) && w == RunWords(RunAt(t, indexes[..], count, i))
  {
    hide RunFrom, Layout, RunWords, Outside;
    var op := OpAt(t, i);
    if op == -2 {
      RunStaysOutside(t, i);
      w, reps := TwoWords(count, BLOCK), BLOCK;
    } else {
      reps := RunLength(t, i);
      w := EmitRun(if op >= 0 then indexes[op] else 0, reps);
    }
  }

  function TwoWords(x: int, reps: Word): (w: seq<Word>)
    requires 0x10 < reps
    ensures w == RunWords(Run(x % BLOCK, reps))
  {
    LowBits(x);
    [x * 16 % 0x1_0000, reps]
  }

  method EmitRun(x: int, reps: nat) returns (w: seq<Word>)
    requires 1 <= reps < 0x1_0000
    ensures w == RunWords(Run(x % BLOCK, reps))
  {
    LowBits(x);
    var out := x * 16 % 0x1_0000;
    if reps <= 0xe || reps == 0x10 {
      w := [out + if reps != 0x10 then reps else 0xf];
    } else {
      w := [out, reps];
    }
  }

  method OpAt(t: seq<int>, i: nat) returns (op: int)
    requires Layout(t) && i < FLINE && Outside(i)
    ensures |t| == SIZE && op == t[i] < SIZE && -3 < op && (op == -2 ==> i == ALINE)
  {
    op := t[i];
  }

  lemma LowBits(x: int)
    ensures x * 16 % 0x1_0000 == x % BLOCK * 16
  {
    Remainder(x * 16, x / BLOCK, 0x1_0000, x % BLOCK * 16);
  }

  /** Prints the control words for the table below the f-line block, as many as its maximal runs take, and the
      padding behind them. */
  method Compress(t: seq<int>, count: nat, indexes: array<int>) returns (words: seq<Word>)
    requires Layout(t) && indexes.Length == SIZE
    ensures words == Stream(t, indexes[..], count, 0) + Zeros(Padding(WordCount(t)))
  {
    words := [];
    var i := 0;
    hide Layout, RunFrom, Stream, RunWords, RunAt, Padding, Printed, WordCount;
    NothingPrinted(t, indexes[..], count);
    while i < FLINE
      invariant 0 <= i <= FLINE && Outside(i) && Printed(t, indexes[..], count, words, i)
    {
      var w, reps := PrintRun(t, count, indexes, i);
      PrintedNext(t, indexes[..], count, words, i);
      RunStaysOutside(t, i);
      words := words + w;
      i := i + reps;
    }
    AllPrinted(t, indexes[..], count, words);
    words := Pad(words);
  }

  /** The words so far are those in front of entry i. */
  ghost predicate Printed(t: seq<int>, indexes: seq<int>, count: nat, words: seq<Word>, i: nat)
    requires Layout(t) && |indexes| == SIZE && i <= FLINE
  {
    words + Stream(t, indexes, count, i) == Stream(t, indexes, count, 0)
  }

  lemma NothingPrinted(t: seq<int>, indexes: seq<int>, count: nat)
    requires Layout(t) && |indexes| == SIZE
    ensures Printed(t, indexes, count, [], 0)
  {
    assert [] + Stream(t, indexes, count, 0) == Stream(t, indexes, count, 0);
    hide Stream;
  }

  lemma PrintedNext(t: seq<int>, indexes: seq<int>, count: nat, words: seq<Word>, i: nat)
    requires Layout(t) && |indexes| == SIZE && i < FLINE && Printed(t, indexes, count, words, i)
    ensures Printed(t, indexes, count, words + RunWords(RunAt(t, indexes, count, i)), i + RunFrom(t, i))
  {
    hide Stream, RunWords, RunAt, RunFrom;
    StreamStep(t, indexes, count, i);
    Associate(words, RunWords(RunAt(t, indexes, count, i)), Stream(t, indexes, count, i + RunFrom(t, i)));
  }

  lemma AllPrinted(t: seq<int>, indexes: seq<int>, count: nat, words: seq<Word>)
    requires Layout(t) && |indexes| == SIZE && Printed(t, indexes, count, words, FLINE)
    ensures words == Stream(t, indexes, count, 0) && |words| == WordCount(t)
  {
    hide Stream;
    StreamEnds(t, indexes, count);
    assert words + [] == words;
  }

  lemma Associate<T>(a: seq<T>, b: seq<T>, c: seq<T>)
    ensures a + b + c == a + (b + c)
  {
  }

  lemma StreamStep(t: seq<int>, indexes: seq<int>, count: nat, i: nat)
    requires Layout(t) && |indexes| == SIZE && i < FLINE
    ensures Stream(t, indexes, count, i)
         == RunWords(RunAt(t, indexes, count, i)) + Stream(t, indexes, count, i + RunFrom(t, i))
    ensures WordsFrom(t, i) == WordsOfRun(RunFrom(t, i)) + WordsFrom(t, i + RunFrom(t, i))
  {
    hide RunWords, RunAt, RunFrom, WordsOfRun;
  }

  lemma StreamEnds(t: seq<int>, indexes: seq<int>, count: nat)
    requires Layout(t) && |indexes| == SIZE
    ensures Stream(t, indexes, count, FLINE) == [] && WordsFrom(t, FLINE) == 0
  {
  }

  method Pad(words0: seq<Word>) returns (words: seq<Word>)
    ensures words == words0 + Zeros(Padding(|words0|))
  {
    hide Zeros, ZeroLines;
    words := words0;
    var ip := |words|;
    ghost var n := 0;
    NoZeros(words0);
    if ip % 2 == 1 {
      MoreZeros(words0, n, 1);
      words, ip, n := words + [0], ip + 1, n + 1;
    }
    if ip % 8 != 0 {
      for i := 0 to 8 - ip % 8
        invariant words == words0 + Zeros(n + i)
      {
        MoreZeros(words0, n + i, 1);
        words := words + [0];
      }
      n := n + (8 - ip % 8);
    }
    for i := 0 to ZeroLines(ip)
      invariant words == words0 + Zeros(n + 16 * i)
    {
      MoreZeros(words0, n + 16 * i, 16);
      words := words + Zeros(16);
    }
  }

  lemma NoZeros(words: seq<Word>)
    ensures words + Zeros(0) == words
  {
  }

  lemma MoreZeros(words: seq<Word>, a: nat, b: nat)
    ensures words + Zeros(a) + Zeros(b) == words + Zeros(a + b) && Zeros(1) == [0]
  {
  }

  // ------------------------------------------------------------------ the printed memory

  /** An entry of the memory: the address of a handler, or two control words. */
  datatype Cell = Code(h: Handler) | Data(first: Word, second: Word)

  predicate IsZero(c: Cell) { c == Code(Zero) || c == Data(0, 0) }

  /** The zero entries printed behind n handlers: up to a whole line, then the lines that the source counts, with its
      division truncating towards zero. */
  function HandlerPadding(n: nat): nat {
    (if n % 8 == 0 then 0 else 8 - n % 8) + if n <= 0x4000 then 8 * ((0x4000 - n) / 8) else 0
  }

  lemma HandlersFit(n: nat)
    requires n <= 0x4000
    ensures ALINE + n + HandlerPadding(n) == CONTROL
  {
  }

  function CellAt(handlers: seq<Handler>, words: seq<Word>, e: nat): Cell
    requires |words| % 2 == 0 && e < ImageSize(handlers, words)
  {
    var control := ALINE + |handlers| + HandlerPadding(|handlers|);
    if e < ALINE then Code(Zero)
    else if e < control then Code(HandlerAt(handlers, e - ALINE))
    else Data(words[2 * (e - control)], words[2 * (e - control) + 1])
  }

  function ImageSize(handlers: seq<Handler>, words: seq<Word>): nat
    requires |words| % 2 == 0
  {
    ALINE + |handlers| + HandlerPadding(|handlers|) + |words| / 2
  }

  /** What the assembler makes of the listing: room for the table, the handlers, and the control words. */
  function Image(handlers: seq<Handler>, words: seq<Word>): (m: seq<Cell>)
    requires |words| % 2 == 0
    ensures |m| == ImageSize(handlers, words) && forall e :: 0 <= e < |m| ==> m[e] == CellAt(handlers, words, e)
  {
    seq(ImageSize(handlers, words), e requires 0 <= e < ImageSize(handlers, words) => CellAt(handlers, words, e))
  }

  // ----------------------------------------------------------------- decompressor

  /** A control word, or none where there is no word any more. */
  datatype Fetch = NoWord | Fetched(w: Word)

  function WordAt(m: seq<Cell>, q: nat): Fetch {
    var e := CONTROL + q / 2;
    if e < |m| && m[e].Data? then Fetched(if q % 2 == 0 then m[e].first else m[e].second) else NoWord
  }

  /** What the decompressor finds at word p: something else than control words, the end marker, or a run of the entry
      that it looks up, and where it reads on. */
  datatype Token = Gone | End | Piece(cell: Cell, count: nat, next: nat)

  function NibbleCount(word: int): int { if word % 16 == 0xf then 0x10 else word % 16 }

  function TokenAt(m: seq<Cell>, p: nat): Token
    requires |m| >= SIZE
  {
    match WordAt(m, p)
    case NoWord => Gone
    case Fetched(w) =>
      if w % 16 != 0 then Piece(m[ALINE + w / 16], NibbleCount(w), p + 1)
      else
        match WordAt(m, p + 1)
        case NoWord => Gone
        case Fetched(v) => if v == 0 then End else Piece(m[ALINE + w / 16], v, p + 2)
  }

  function Fill(m: seq<Cell>, dest: nat, count: nat, c: Cell): (r: seq<Cell>)
    ensures |r| == |m| && forall e :: 0 <= e < |m| ==> r[e] == if dest <= e < dest + count then c else m[e]
  {
    seq(|m|, e requires 0 <= e < |m| => if dest <= e < dest + count then c else m[e])
  }

  /** The table was expanded before, it is expanded now, or the decompressor has left the control words: it has run
      over what it had not read yet, or behind their end. What it does then is not modelled. */
  datatype Outcome = Already | Done | Lost

  /** The expanding loop, from word p and entry dest on. */
  function Unpack(m: seq<Cell>, p: nat, dest: nat): (r: (Outcome, seq<Cell>))
    requires |m| >= SIZE
    ensures |r.1| == |m|
    decreases 2 * |m| - p
  {
    match TokenAt(m, p)
    case Gone => (Lost, m)
    case End => (Done, m)
    case Piece(c, count, next) =>
      if IsZero(c) then Unpack(m, next, dest + count)
      else if dest + count > |m| then (Lost, m)
      else Unpack(Fill(m, dest, count, c), next, dest + count)
  }

  /** The two exception blocks, with the handlers that stand at their places. */
  function Finish(m: seq<Cell>): (r: seq<Cell>)
    requires |m| >= SIZE
    ensures |r| == |m|
  {
    Fill(Fill(m, ALINE, BLOCK, m[ALINE + 1]), FLINE, BLOCK, m[ALINE + 2])
  }

  /** The whole start-up code. */
  function Init(m: seq<Cell>): (r: (Outcome, seq<Cell>))
    requires |m| >= SIZE
    ensures |r.1| == |m|
  {
    if !IsZero(m[CONTROL - 1]) then (Already, m)
    else
      var (r, n) := Unpack(m, 0, 0);
      (r, if r == Done then Finish(n) else n)
  }

  /** The emitted start-up code, in place. */
  method Decompress(mem: array<Cell>) returns (r: Outcome)
    requires mem.Length >= SIZE
    modifies mem
    ensures (r, mem[..]) == Init(old(mem[..]))
  {
    hide Unpack, TokenAt, Fill, IsZero;
    if !IsZero(mem[CONTROL - 1]) { return Already; }
    r := Expand(mem);
    if r == Done {
      var aLine, fLine := mem[ALINE + 1], mem[ALINE + 2];
      FillBlock(mem, ALINE, BLOCK, aLine);
      FillBlock(mem, FLINE, BLOCK, fLine);
    }
  }

  /** The expanding loop. */
  method Expand(mem: array<Cell>) returns (r: Outcome)
    requires mem.Length >= SIZE
    modifies mem
    ensures (r, mem[..]) == Unpack(old(mem[..]), 0, 0)
  {
    ghost var all := Unpack(mem[..], 0, 0);
    hide Unpack, TokenAt, Fill, IsZero;
    var dest: nat, p: nat := 0, 0;
    while true
      invariant mem.Length >= SIZE && Unpack(mem[..], p, dest) == all
      decreases 2 * mem.Length - p
    {
      UnpackStep(mem[..], p, dest);
      var token := ReadToken(mem, p);
      if token.Gone? { return Lost; }
      if token.End? { return Done; }
      var stored := Store(mem, dest, token.count, token.cell);
      if !stored { return Lost; }
      dest, p := dest + token.count, token.next;
    }
  }

  /** Writes a run, or skips it when there is no handler to write. */
  method Store(mem: array<Cell>, dest: nat, count: nat, c: Cell) returns (ok: bool)
    modifies mem
    ensures ok <==> IsZero(c) || dest + count <= mem.Length
    ensures mem[..] == if ok && !IsZero(c) then Fill(old(mem[..]), dest, count, c) else old(mem[..])
  {
    hide Fill;
    ok := true;
    if !IsZero(c) {
      ok := dest + count <= mem.Length;
      if ok { FillBlock(mem, dest, count, c); }
    }
  }

  /** One turn of the loop, and that it gets nearer to the end of the memory. */
  lemma UnpackStep(m: seq<Cell>, p: nat, dest: nat)
    requires |m| >= SIZE
    ensures Unpack(m, p, dest)
         == match TokenAt(m, p)
            case Gone => (Lost, m)
            case End => (Done, m)
            case Piece(c, count, next) =>
              if IsZero(c) then Unpack(m, next, dest + count)
              else if dest + count > |m| then (Lost, m)
              else Unpack(Fill(m, dest, count, c), next, dest + count)
    ensures TokenAt(m, p).Piece? ==> p < TokenAt(m, p).next && p < 2 * |m|
  {
    hide Fill, IsZero;
  }

  method ReadToken(mem: array<Cell>, p0: nat) returns (token: Token)
    requires mem.Length >= SIZE
    ensures token == TokenAt(mem[..], p0)
  {
    var p := p0;
    var w := FetchWord(mem, p);
    if w.NoWord? { return Gone; }
    p := p + 1;
    var count := w.w % 16;
    var cell := mem[ALINE + w.w / 16];
    if count == 0xf { count := count + 1; }
    if count == 0 {
      var v := FetchWord(mem, p);
      if v.NoWord? { return Gone; }
      count, p := v.w, p + 1;
      if count == 0 { return End; }
    }
    token := Piece(cell, count, p);
  }

  method FetchWord(mem: array<Cell>, q: nat) returns (w: Fetch)
    ensures w == WordAt(mem[..], q)
  {
    var e := CONTROL + q / 2;
    if e >= mem.Length { return NoWord; }
    match mem[e] {
      case Code(_) => w := NoWord;
      case Data(first, second) => w := Fetched(if q % 2 == 0 then first else second);
    }
  }

  method FillBlock(mem: array<Cell>, dest0: nat, count: nat, c: Cell)
    requires dest0 + count <= mem.Length
    modifies mem
    ensures mem[..] == Fill(old(mem[..]), dest0, count, c)
  {
    ghost var was := mem[..];
    var dest, left := dest0, count;
    while left > 0
      invariant 0 <= left <= count && dest == dest0 + (count - left)
      invariant forall e :: 0 <= e < mem.Length ==> mem[e] == if dest0 <= e < dest then c else was[e]
    {
      left := left - 1;
      mem[dest] := c;
      dest := dest + 1;
    }
  }

  // ------------------------------------------------------- the printed memory, expanded

  /** A memory in which the handlers and the control words are at their places. */
  ghost predicate Holds(m: seq<Cell>, handlers: seq<Handler>, words: seq<Word>) {
    && |m| >= SIZE
    && (forall x :: 0 <= x < 0x4000 ==> m[ALINE + x] == Code(HandlerAt(handlers, x)))
    && (forall q: nat :: WordAt(m, q) == if q < |words| then Fetched(words[q]) else NoWord)
  }

  lemma ImageHolds(handlers: seq<Handler>, words: seq<Word>)
    requires |handlers| <= 0x4000 && |words| % 2 == 0 && |words| >= 2 * (SIZE - CONTROL)
    ensures Holds(Image(handlers, words), handlers, words)
    ensures forall e :: 0 <= e < ALINE ==> Image(handlers, words)[e] == Code(Zero)
  {
    HandlersFit(|handlers|);
    hide HandlerPadding, HandlerAt, Image;
    var m := Image(handlers, words);
    forall q: nat ensures WordAt(m, q) == if q < |words| then Fetched(words[q]) else NoWord {
      if q < |words| { assert m[CONTROL + q / 2] == CellAt(handlers, words, CONTROL + q / 2); }
    }
  }

  /** Nothing from entry i on has been written yet. */
  ghost predicate Untouched(image: seq<Cell>, m: seq<Cell>, i: nat) {
    |m| == |image| && forall e :: i <= e < |m| ==> m[e] == image[e]
  }

  /** Word p has not been run over when the table has been written up to entry i. */
  predicate Ahead(i: nat, p: nat) { 2 * (i - CONTROL) <= p }

  lemma Intact(image: seq<Cell>, m: seq<Cell>, i: nat, q: nat)
    requires Untouched(image, m, i) && Ahead(i, q)
    ensures WordAt(m, q) == WordAt(image, q)
  {
  }

  /** The words of a run, in front of what comes after it. */
  lemma WordsInFront(t: seq<int>, indexes: seq<int>, count: nat, words: seq<Word>, rest: seq<Word>, i: nat, p: nat)
    requires Layout(t) && |indexes| == SIZE && i < FLINE
    requires p <= |words| && words[p..] == Stream(t, indexes, count, i) + rest
    ensures var r := RunAt(t, indexes, count, i);
            && p + WordsOfRun(r.reps) <= |words| && r.Fits() && words[p] == RunWords(r)[0]
            && (|RunWords(r)| > 1 ==> words[p + 1] == RunWords(r)[1])
            && words[p + WordsOfRun(r.reps)..] == Stream(t, indexes, count, i + r.reps) + rest
  {
    var r := RunAt(t, indexes, count, i);
    StreamStep(t, indexes, count, i);
    hide Layout, Stream, RunAt, RunFrom, RunWords, WordsOfRun;
    Associate(RunWords(r), Stream(t, indexes, count, i + r.reps), rest);
    assert RunWords(r) != [] by { AtLeastOne(r); }
    InFront(words, p, RunWords(r), Stream(t, indexes, count, i + r.reps) + rest);
  }

  lemma AtLeastOne(r: Run)
    requires r.Fits()
    ensures RunWords(r) != []
  {
  }

  /** They are read back as that run where they have not been run over. */
  lemma FetchesRun(handlers: seq<Handler>, words: seq<Word>, image: seq<Cell>, m: seq<Cell>, i: nat, p: nat, r: Run)
    requires Holds(image, handlers, words) && Untouched(image, m, i) && Ahead(i, p)
    requires r.Fits() && p + WordsOfRun(r.reps) <= |words| && words[p] == RunWords(r)[0]
    requires |RunWords(r)| > 1 ==> words[p + 1] == RunWords(r)[1]
    ensures |m| >= SIZE && TokenAt(m, p) == Piece(m[ALINE + r.x], r.reps, p + WordsOfRun(r.reps))
  {
    WordsHeld(image, handlers, words, p);
    WordsHeld(image, handlers, words, p + 1);
    Intact(image, m, i, p);
    Intact(image, m, i, p + 1);
    SameSize(image, handlers, words, m, i);
    TokenOf(m, p, r);
    hide Holds, Untouched, WordAt, TokenAt, RunWords;
  }

  /** What is found at the start of a run that has not been run over. */
  lemma NextToken(t: seq<int>, handlers: seq<Handler>, indexes: seq<int>, words: seq<Word>, rest: seq<Word>,
                  image: seq<Cell>, m: seq<Cell>, i: nat, p: nat)
    requires Layout(t) && |indexes| == SIZE && i < FLINE && Holds(image, handlers, words)
    requires Untouched(image, m, i) && Ahead(i, p)
    requires p <= |words| && words[p..] == Stream(t, indexes, |handlers|, i) + rest
    ensures |m| >= SIZE
    ensures var r := RunAt(t, indexes, |handlers|, i);
            && TokenAt(m, p) == Piece(m[ALINE + r.x], r.reps, p + WordsOfRun(r.reps))
            && p + WordsOfRun(r.reps) <= |words|
            && words[p + WordsOfRun(r.reps)..] == Stream(t, indexes, |handlers|, i + r.reps) + rest
  {
    hide *;
    WordsInFront(t, indexes, |handlers|, words, rest, i, p);
    FetchesRun(handlers, words, image, m, i, p, RunAt(t, indexes, |handlers|, i));
  }

  lemma InFront(words: seq<Word>, p: nat, w: seq<Word>, tail: seq<Word>)
    requires p <= |words| && words[p..] == w + tail && w != []
    ensures p + |w| <= |words| && words[p] == w[0] && (|w| > 1 ==> words[p + 1] == w[1]) && words[p + |w|..] == tail
  {
    assert words[p..][0] == w[0] && words[p..][|w|..] == tail;
    assert |w| > 1 ==> words[p..][1] == w[1];
  }

  lemma WordsHeld(image: seq<Cell>, handlers: seq<Handler>, words: seq<Word>, q: nat)
    requires Holds(image, handlers, words)
    ensures WordAt(image, q) == if q < |words| then Fetched(words[q]) else NoWord
  {
    hide WordAt;
  }

  lemma SameSize(image: seq<Cell>, handlers: seq<Handler>, words: seq<Word>, m: seq<Cell>, i: nat)
    requires Holds(image, handlers, words) && Untouched(image, m, i)
    ensures |m| == |image| >= SIZE
    ensures forall x :: 0 <= x < BLOCK && i <= ALINE + x ==> m[ALINE + x] == Code(HandlerAt(handlers, x))
  {
    hide WordAt, HandlerAt;
  }

  /** The one or two words of a run are read back as that run, of any length. */
  lemma TokenOf(m: seq<Cell>, p: nat, r: Run)
    requires |m| >= SIZE && r.Fits() && WordAt(m, p) == Fetched(RunWords(r)[0])
    requires |RunWords(r)| == 2 ==> WordAt(m, p + 1) == Fetched(RunWords(r)[1])
    ensures TokenAt(m, p) == Piece(m[ALINE + r.x], r.reps, p + WordsOfRun(r.reps))
  {
    hide WordAt;
  }

  /** Where the loop has got to, with everything as it should be: the entries before i hold what the table says, the
      a-line block still holds the handlers. */
  ghost predicate Expanded(t: seq<int>, image: seq<Cell>, m: seq<Cell>, i: nat)
    requires i <= FLINE <= |t|
  {
    && |m| == |image|
    && forall e :: 0 <= e < |m| ==>
         m[e] == if e < i && !(ALINE <= e < ALINE + BLOCK) then Code(CellOf(t[e])) else image[e]
  }

  /** At the start of every run, and of the end marker, the control words to be read next have not been run over. */
  predicate StaysAhead(t: seq<int>, i: nat, p: nat)
    requires i <= FLINE <= |t|
    decreases FLINE - i
  {
    Ahead(i, p) && (i == FLINE || StaysAhead(t, i + RunFrom(t, i), p + WordsOfRun(RunFrom(t, i))))
  }

  lemma IndexGivesCell(t: seq<int>, handlers: seq<Handler>, indexes: seq<int>, i: nat)
    requires Layout(t) && Indexed(t, SIZE, handlers, indexes) && |handlers| < BLOCK && i < FLINE
    ensures var x := RunAt(t, indexes, |handlers|, i).x; HandlerAt(handlers, x) == CellOf(t[i])
    ensures CellOf(t[i]) == Zero <==> t[i] == -2
  {
    hide RunFrom;
  }

  lemma ExpandedUntouched(t: seq<int>, image: seq<Cell>, m: seq<Cell>, i: nat)
    requires i <= FLINE <= |t| && Outside(i) && Expanded(t, image, m, i)
    ensures Untouched(image, m, i)
  {
    hide CellOf;
  }

  lemma ExpandedNext(t: seq<int>, image: seq<Cell>, m: seq<Cell>, i: nat)
    requires Layout(t) && i < FLINE && Outside(i) && |image| >= SIZE && Expanded(t, image, m, i)
    ensures i == ALINE ==> Expanded(t, image, m, i + RunFrom(t, i))
    ensures i != ALINE ==> Expanded(t, image, Fill(m, i, RunFrom(t, i), Code(CellOf(t[i]))), i + RunFrom(t, i))
  {
    RunStaysOutside(t, i);
    forall j | i <= j < i + RunFrom(t, i) ensures t[j] == t[i] { RunIsConstant(t, i, j); }
    hide CellOf, RunFrom, Layout;
  }

  /** A word that has been run over is a piece of an address. */
  lemma RunOver(t: seq<int>, image: seq<Cell>, m: seq<Cell>, i: nat, p: nat)
    requires i <= FLINE <= |t| && |image| >= SIZE && Expanded(t, image, m, i) && !Ahead(i, p)
    ensures TokenAt(m, p) == Gone
  {
    hide CellOf;
  }

  lemma LastToken(t: seq<int>, handlers: seq<Handler>, words: seq<Word>, image: seq<Cell>, m: seq<Cell>, p: nat, z: nat)
    requires FLINE <= |t| && Holds(image, handlers, words) && Expanded(t, image, m, FLINE) && Ahead(FLINE, p)
    requires p <= |words| && words[p..] == Zeros(z)
    ensures |m| >= SIZE && TokenAt(m, p) == if z >= 2 then End else Gone
  {
    ExpandedUntouched(t, image, m, FLINE);
    WordsHeld(image, handlers, words, p);
    WordsHeld(image, handlers, words, p + 1);
    Intact(image, m, FLINE, p);
    Intact(image, m, FLINE, p + 1);
    SameSize(image, handlers, words, m, FLINE);
    assert z == |words| - p;
    assert z >= 1 ==> words[p..][0] == words[p] == 0;
    assert z >= 2 ==> words[p..][1] == words[p + 1] == 0;
    hide Holds, Expanded, Untouched, WordAt, Zeros;
  }

  /** The loop is at the start of the run at entry i, or behind the last one, with z zeros to come. */
  ghost predicate Midway(t: seq<int>, handlers: seq<Handler>, indexes: seq<int>, words: seq<Word>, z: nat,
                         image: seq<Cell>, m: seq<Cell>, i: nat, p: nat)
  {
    && Layout(t) && Indexed(t, SIZE, handlers, indexes) && |handlers| < BLOCK
    && Holds(image, handlers, words) && i <= FLINE && Outside(i) && Expanded(t, image, m, i)
    && p <= |words| && words[p..] == Stream(t, indexes, |handlers|, i) + Zeros(z)
  }

  lemma MidwayMeans(t: seq<int>, handlers: seq<Handler>, indexes: seq<int>, words: seq<Word>, z: nat,
                    image: seq<Cell>, m: seq<Cell>, i: nat, p: nat)
    requires Midway(t, handlers, indexes, words, z, image, m, i, p)
    ensures |t| == |indexes| == SIZE && FLINE <= |t| && |m| == |image| >= SIZE
    ensures i <= FLINE && Outside(i) && p <= |words|
    ensures Layout(t) && Indexed(t, SIZE, handlers, indexes) && |handlers| < BLOCK
    ensures Holds(image, handlers, words) && Expanded(t, image, m, i)
    ensures words[p..] == Stream(t, indexes, |handlers|, i) + Zeros(z)
  {
    SizesOf(t, handlers, indexes, words, image, m, i);
    hide Layout, Indexed, Holds, Expanded, Stream, Outside, Zeros;
  }

  /** The memory one run further. */
  function AfterRun(t: seq<int>, m: seq<Cell>, i: nat): seq<Cell>
    requires i < FLINE <= |t|
  {
    if t[i] == -2 then m else Fill(m, i, RunFrom(t, i), Code(CellOf(t[i])))
  }

  lemma AfterRunIsExpanded(t: seq<int>, image: seq<Cell>, m: seq<Cell>, i: nat)
    requires Layout(t) && i < FLINE && Outside(i) && |image| >= SIZE && Expanded(t, image, m, i)
    ensures Expanded(t, image, AfterRun(t, m, i), i + RunFrom(t, i)) && Outside(i + RunFrom(t, i))
  {
    assert t[i] == -2 <==> i == ALINE;
    ExpandedNext(t, image, m, i);
    RunStaysOutside(t, i);
    hide Layout, Expanded, Fill, CellOf, RunFrom, Outside;
  }

  /** The loop takes a run that it finds as what it is. */
  lemma TakesRun(t: seq<int>, m: seq<Cell>, i: nat, p: nat)
    requires i < FLINE <= |t| && |m| >= SIZE
    requires TokenAt(m, p) == Piece(Code(CellOf(t[i])), RunFrom(t, i), p + WordsOfRun(RunFrom(t, i)))
    requires IsZero(Code(CellOf(t[i]))) <==> t[i] == -2
    ensures Unpack(m, p, i) == Unpack(AfterRun(t, m, i), p + WordsOfRun(RunFrom(t, i)), i + RunFrom(t, i))
  {
    hide Unpack, TokenAt, Fill, CellOf, RunFrom, WordsOfRun, IsZero;
    UnpackStep(m, p, i);
  }

  lemma StaysAheadStep(t: seq<int>, i: nat, p: nat)
    requires i < FLINE <= |t| && Ahead(i, p)
    ensures StaysAhead(t, i, p) == StaysAhead(t, i + RunFrom(t, i), p + WordsOfRun(RunFrom(t, i)))
  {
    hide RunFrom, WordsOfRun;
  }

  lemma FindsRun(t: seq<int>, handlers: seq<Handler>, indexes: seq<int>, words: seq<Word>, z: nat,
                 image: seq<Cell>, m: seq<Cell>, i: nat, p: nat)
    requires Midway(t, handlers, indexes, words, z, image, m, i, p) && i < FLINE && Ahead(i, p)
    ensures |t| == SIZE && |m| >= SIZE && (IsZero(Code(CellOf(t[i]))) <==> t[i] == -2)
    ensures var n := WordsOfRun(RunFrom(t, i));
            && TokenAt(m, p) == Piece(Code(CellOf(t[i])), RunFrom(t, i), p + n) && p + n <= |words|
            && words[p + n..] == Stream(t, indexes, |handlers|, i + RunFrom(t, i)) + Zeros(z)
  {
    hide *;
    MidwayMeans(t, handlers, indexes, words, z, image, m, i, p);
    ExpandedUntouched(t, image, m, i);
    NextToken(t, handlers, indexes, words, Zeros(z), image, m, i, p);
    TheCell(t, handlers, indexes, words, image, m, i);
  }

  lemma MidwayNext(t: seq<int>, handlers: seq<Handler>, indexes: seq<int>, words: seq<Word>, z: nat,
                   image: seq<Cell>, m: seq<Cell>, i: nat, p: nat, m': seq<Cell>, i': nat, p': nat)
    requires Midway(t, handlers, indexes, words, z, image, m, i, p)
    requires FLINE <= |t| && |indexes| == SIZE && Layout(t) && i' <= FLINE && Outside(i') && Expanded(t, image, m', i')
    requires p' <= |words| && words[p'..] == Stream(t, indexes, |handlers|, i') + Zeros(z)
    ensures Midway(t, handlers, indexes, words, z, image, m', i', p')
  {
    hide Layout, Indexed, Holds, Expanded, Stream, Outside, Zeros;
  }

  /** One run further. */
  lemma OneRun(t: seq<int>, handlers: seq<Handler>, indexes: seq<int>, words: seq<Word>, z: nat,
               image: seq<Cell>, m: seq<Cell>, i: nat, p: nat)
    returns (m': seq<Cell>, i': nat, p': nat)
    requires Midway(t, handlers, indexes, words, z, image, m, i, p) && i < FLINE && Ahead(i, p)
    ensures |t| == SIZE && FLINE <= |t| && |m| >= SIZE && |m'| >= SIZE && i < i' <= FLINE
    ensures Midway(t, handlers, indexes, words, z, image, m', i', p')
    ensures Unpack(m, p, i) == Unpack(m', p', i') && StaysAhead(t, i, p) == StaysAhead(t, i', p')
  {
    hide *;
    MidwayMeans(t, handlers, indexes, words, z, image, m, i, p);
    FindsRun(t, handlers, indexes, words, z, image, m, i, p);
    TakesRun(t, m, i, p);
    StaysAheadStep(t, i, p);
    AfterRunIsExpanded(t, image, m, i);
    m', i', p' := AfterRun(t, m, i), i + RunFrom(t, i), p + WordsOfRun(RunFrom(t, i));
    MidwayNext(t, handlers, indexes, words, z, image, m, i, p, m', i', p');
    MidwayMeans(t, handlers, indexes, words, z, image, m', i', p');
  }

  /** The two ways in which it comes to an end. */
  lemma NoRun(t: seq<int>, handlers: seq<Handler>, indexes: seq<int>, words: seq<Word>, z: nat,
              image: seq<Cell>, m: seq<Cell>, i: nat, p: nat)
    requires Midway(t, handlers, indexes, words, z, image, m, i, p) && (i == FLINE || !Ahead(i, p))
    ensures |t| == SIZE && |m| >= SIZE
    ensures Unpack(m, p, i) == (if StaysAhead(t, i, p) && z >= 2 then Done else Lost, m)
  {
    SizesOf(t, handlers, indexes, words, image, m, i);
    hide Layout, Indexed, Holds, Expanded, Unpack, Stream, RunFrom, TokenAt, Fill, Outside, Zeros, Ahead;
    UnpackStep(m, p, i);
    if !Ahead(i, p) {
      RunOver(t, image, m, i, p);
    } else {
      StreamEnds(t, indexes, |handlers|);
      assert [] + Zeros(z) == Zeros(z);
      LastToken(t, handlers, words, image, m, p, z);
    }
  }

  /** What the expanding loop makes of the printed memory, from any run on: the table below the f-line block, when it
      stays ahead of itself and the padding ends it; otherwise it leaves the control words. */
  lemma {:induction false} Unpacks(t: seq<int>, handlers: seq<Handler>, indexes: seq<int>, words: seq<Word>, z: nat,
                                   image: seq<Cell>, m: seq<Cell>, i: nat, p: nat)
    requires Midway(t, handlers, indexes, words, z, image, m, i, p)
    ensures |t| == SIZE && |m| >= SIZE && i <= FLINE
    ensures var (r, n) := Unpack(m, p, i);
            if StaysAhead(t, i, p) && z >= 2 then r == Done && Expanded(t, image, n, FLINE) else r == Lost
    decreases FLINE - i
  {
    hide *;
    MidwayMeans(t, handlers, indexes, words, z, image, m, i, p);
    if i == FLINE || !Ahead(i, p) {
      NoRun(t, handlers, indexes, words, z, image, m, i, p);
      if !Ahead(i, p) { NeverAhead(t, i, p); }
    } else {
      var m', i', p' := OneRun(t, handlers, indexes, words, z, image, m, i, p);
      Unpacks(t, handlers, indexes, words, z, image, m', i', p');
    }
  }

  lemma NeverAhead(t: seq<int>, i: nat, p: nat)
    requires i <= FLINE <= |t| && !Ahead(i, p)
    ensures !StaysAhead(t, i, p)
  {
  }

  lemma SizesOf(t: seq<int>, handlers: seq<Handler>, indexes: seq<int>, words: seq<Word>, image: seq<Cell>,
      m: seq<Cell>, i: nat)
    requires Layout(t) && Indexed(t, SIZE, handlers, indexes) && Holds(image, handlers, words)
    requires i <= FLINE <= |t| && Expanded(t, image, m, i)
    ensures |t| == |indexes| == SIZE && |m| == |image| >= SIZE
  {
  }

  /** The entry that the loop looks up for a run. */
  lemma TheCell(t: seq<int>, handlers: seq<Handler>, indexes: seq<int>, words: seq<Word>, image: seq<Cell>,
      m: seq<Cell>, i: nat)
    requires Layout(t) && Indexed(t, SIZE, handlers, indexes) && |handlers| < BLOCK && i < FLINE && Outside(i)
    requires Holds(image, handlers, words) && Expanded(t, image, m, i) && |m| >= SIZE
    ensures var c := m[ALINE + RunAt(t, indexes, |handlers|, i).x];
            c == Code(CellOf(t[i])) && (IsZero(c) <==> t[i] == -2) && (t[i] == -2 <==> i == ALINE)
  {
    IndexGivesCell(t, handlers, indexes, i);
    var x := RunAt(t, indexes, |handlers|, i).x;
    assert m[ALINE + x] == image[ALINE + x] == Code(HandlerAt(handlers, x));
    hide CellOf, HandlerAt, RunAt, RunFrom, WordAt, Indexed;
  }

  // ------------------------------------------------------------------ too many handlers

  ghost predicate NoZero(handlers: seq<Handler>) { forall x :: 0 <= x < |handlers| ==> handlers[x] != Zero }

  lemma CollectedNoZero(t: seq<int>, handlers: seq<Handler>, indexes: seq<int>)
    requires Indexed(t, |t|, handlers, indexes) && NothingExtra(t, |t|, handlers)
    ensures NoZero(handlers)
  {
  }

  /** Once the entries of the a-line and the f-line handler are the same, they stay so. */
  lemma {:induction false} SameStays(m: seq<Cell>, p: nat, dest: nat)
    requires |m| >= SIZE && dest >= ALINE + BLOCK && m[ALINE + 1] == m[ALINE + 2]
    ensures var n := Unpack(m, p, dest).1; n[ALINE + 1] == n[ALINE + 2]
    decreases 2 * |m| - p
  {
    hide Unpack, TokenAt, IsZero;
    UnpackStep(m, p, dest);
    match TokenAt(m, p) {
      case Piece(c, count, next) =>
        if IsZero(c) {
          SameStays(m, next, dest + count);
        } else if dest + count <= |m| {
          SameStays(Fill(m, dest, count, c), next, dest + count);
        }
      case _ =>
    }
  }

  /** The entry that the loop looks up for a run in front of the a-line block or at its start. */
  lemma CrowdedCell(t: seq<int>, handlers: seq<Handler>, indexes: seq<int>, words: seq<Word>, image: seq<Cell>,
      m: seq<Cell>,
                    i: nat)
    requires Layout(t) && |indexes| == SIZE && BLOCK <= |handlers| && NoZero(handlers) && i <= ALINE
    requires Holds(image, handlers, words) && Untouched(image, m, i) && |m| >= SIZE
    ensures !IsZero(m[ALINE + RunAt(t, indexes, |handlers|, i).x])
  {
    SameSize(image, handlers, words, m, i);
    hide RunAt, RunFrom, Holds, Untouched, Layout;
    var x := RunAt(t, indexes, |handlers|, i).x;
    assert m[ALINE + x] == Code(HandlerAt(handlers, x)) && HandlerAt(handlers, x) == handlers[x];
  }

  lemma UntouchedNext(image: seq<Cell>, m: seq<Cell>, i: nat, reps: nat, c: Cell)
    requires Untouched(image, m, i)
    ensures Untouched(image, Fill(m, i, reps, c), i + reps)
  {
  }

  /** With 0x1000 handlers or more the a-line block is not skipped: its twelve bits name a handler, which is written
      over all the others. */
  lemma {:induction false} Crowded(t: seq<int>, handlers: seq<Handler>, indexes: seq<int>, words: seq<Word>,
      rest: seq<Word>,
                                   image: seq<Cell>, m: seq<Cell>, i: nat, p: nat)
    requires Layout(t) && |indexes| == SIZE && BLOCK <= |handlers| && NoZero(handlers) && i <= ALINE
    requires Holds(image, handlers, words) && Untouched(image, m, i) && |m| >= SIZE
    requires p <= |words| && words[p..] == Stream(t, indexes, |handlers|, i) + rest
    ensures var n := Unpack(m, p, i).1; Unpack(m, p, i).0 == Done ==> n[ALINE + 1] == n[ALINE + 2]
    decreases FLINE - i
  {
    hide Layout, NoZero, Holds, Untouched, Unpack, Stream, RunFrom, TokenAt, RunAt, Fill, IsZero, WordsOfRun;
    var r := RunAt(t, indexes, |handlers|, i);
    NextToken(t, handlers, indexes, words, rest, image, m, i, p);
    CrowdedCell(t, handlers, indexes, words, image, m, i);
    RunStaysOutside(t, i);
    UnpackStep(m, p, i);
    var c := m[ALINE + r.x];
    UntouchedNext(image, m, i, r.reps, c);
    if i == ALINE {
      SameStays(Fill(m, i, r.reps, c), p + WordsOfRun(r.reps), i + r.reps);
    } else {
      Crowded(t, handlers, indexes, words, rest, image, Fill(m, i, r.reps, c), i + r.reps, p + WordsOfRun(r.reps));
    }
  }

  // -------------------------------------------------------------------- the round trip

  /** The memory holds the table. */
  ghost predicate Rebuilt(m: seq<Cell>, t: seq<int>)
    requires |t| == SIZE
  {
    |m| >= SIZE && forall i :: 0 <= i < SIZE ==> m[i] == Code(Ideal(t[i]))
  }

  /** The table can be compressed: its handlers can be told apart by twelve bits with one index to spare, its control
      words leave room for the end marker or for padding that serves as one, and they are read before the table runs
      over them. */
  predicate Compressible(t: seq<int>)
    requires FLINE <= |t|
  {
    && HandlerCount(t) < BLOCK
    && (WordCount(t) < 0x400f || 1 <= WordCount(t) % 8 <= 6)
    && StaysAhead(t, 0, 0)
  }

  lemma FinishRebuilds(t: seq<int>, handlers: seq<Handler>, words: seq<Word>, image: seq<Cell>, m: seq<Cell>)
    requires Layout(t) && |t| == SIZE && Holds(image, handlers, words) && Expanded(t, image, m, FLINE) && |m| >= SIZE
    requires |handlers| >= 3 && handlers[1] == ALineHandler && handlers[2] == FLineHandler
    ensures Rebuilt(Finish(m), t)
  {
    assert HandlerAt(handlers, 1) == handlers[1] && HandlerAt(handlers, 2) == handlers[2];
    assert m[ALINE + 1] == image[ALINE + 1] && m[ALINE + 2] == image[ALINE + 2];
    hide WordAt;
  }

  lemma SameIsNotRebuilt(t: seq<int>, m: seq<Cell>)
    requires Layout(t) && |t| == SIZE && |m| >= SIZE && m[ALINE + 1] == m[ALINE + 2]
    ensures !Rebuilt(Finish(m), t)
  {
    assert Finish(m)[ALINE] == Finish(m)[FLINE];
    assert Ideal(t[ALINE]) != Ideal(t[FLINE]);
    hide Layout, Finish;
  }

  /** The control words are read from the front, and the table has not been expanded before. */
  lemma Begins(t: seq<int>, handlers: seq<Handler>, indexes: seq<int>, words: seq<Word>)
    requires Layout(t) && |indexes| == SIZE && |handlers| < 0x4000
    requires words == Stream(t, indexes, |handlers|, 0) + Zeros(Padding(WordCount(t)))
    ensures |words| % 2 == 0
    ensures var image := Image(handlers, words);
            && Holds(image, handlers, words) && |image| >= SIZE && IsZero(image[CONTROL - 1])
            && words[0..] == Stream(t, indexes, |handlers|, 0) + Zeros(Padding(WordCount(t)))
            && (forall e :: 0 <= e < ALINE ==> image[e] == Code(Zero))
  {
    WordsLength(t, indexes, |handlers|, words);
    var few := |handlers|;
    assert few <= 0x4000;
    hide *;
    ImageHolds(handlers, words);
    LastHandlerEntry(Image(handlers, words), handlers, words);
  }

  lemma WordsLength(t: seq<int>, indexes: seq<int>, count: nat, words: seq<Word>)
    requires Layout(t) && |indexes| == SIZE
    requires words == Stream(t, indexes, count, 0) + Zeros(Padding(WordCount(t)))
    ensures |words| == WordCount(t) + Padding(WordCount(t)) && words[0..] == words
    ensures |words| % 2 == 0 && |words| >= 2 * (SIZE - CONTROL)
  {
    hide Stream, Padding;
    PaddedLength(WordCount(t));
  }

  lemma LastHandlerEntry(m: seq<Cell>, handlers: seq<Handler>, words: seq<Word>)
    requires Holds(m, handlers, words)
    ensures |m| >= SIZE && IsZero(m[CONTROL - 1]) <==> |handlers| < 0x4000 || handlers[0x3fff] == Zero
  {
    assert m[ALINE + 0x3fff] == Code(HandlerAt(handlers, 0x3fff));
    hide WordAt;
  }

  lemma BeginsMidway(t: seq<int>, handlers: seq<Handler>, indexes: seq<int>, words: seq<Word>, z: nat, image: seq<Cell>)
    requires Layout(t) && Indexed(t, SIZE, handlers, indexes) && |handlers| < BLOCK && Holds(image, handlers, words)
    requires words[0..] == Stream(t, indexes, |handlers|, 0) + Zeros(z)
    ensures Midway(t, handlers, indexes, words, z, image, image, 0, 0)
    ensures |t| == SIZE && |handlers| >= 3 && handlers[1] == ALineHandler && handlers[2] == FLineHandler
  {
    hide Stream, Holds, CellOf;
  }

  lemma InitIs(m: seq<Cell>)
    requires |m| >= SIZE && IsZero(m[CONTROL - 1])
    ensures Init(m) == var (r, n) := Unpack(m, 0, 0); (r, if r == Done then Finish(n) else n)
  {
    hide Unpack, Finish, IsZero;
  }

  /** Fewer than 0x1000 handlers: the other two conditions decide. */
  lemma FewHandlers(t: seq<int>, handlers: seq<Handler>, indexes: seq<int>, words: seq<Word>)
    requires Layout(t) && Indexed(t, SIZE, handlers, indexes) && |handlers| < BLOCK
    requires words == Stream(t, indexes, |handlers|, 0) + Zeros(Padding(WordCount(t)))
    ensures |t| == SIZE && |words| % 2 == 0 && |Image(handlers, words)| >= SIZE
    ensures var (r, m) := Init(Image(handlers, words));
            r == (if Padding(WordCount(t)) >= 2 && StaysAhead(t, 0, 0) then Done else Lost)
                  && (r == Done ==> Rebuilt(m, t))
  {
    Begins(t, handlers, indexes, words);
    hide *;
    var image, z := Image(handlers, words), Padding(WordCount(t));
    BeginsMidway(t, handlers, indexes, words, z, image);
    InitIs(image);
    Unpacks(t, handlers, indexes, words, z, image, image, 0, 0);
    if StaysAhead(t, 0, 0) && z >= 2 { FinishRebuilds(t, handlers, words, image, Unpack(image, 0, 0).1); }
  }

  /** More than that: the two exception blocks are filled alike, or nothing is done at all. */
  lemma ManyHandlers(t: seq<int>, handlers: seq<Handler>, indexes: seq<int>, words: seq<Word>)
    requires Layout(t) && |indexes| == SIZE && BLOCK <= |handlers| && NoZero(handlers)
    requires words == Stream(t, indexes, |handlers|, 0) + Zeros(Padding(WordCount(t)))
    ensures |t| == SIZE && |words| % 2 == 0 && |Image(handlers, words)| >= SIZE
    ensures var (r, m) := Init(Image(handlers, words)); !(r == Done && Rebuilt(m, t))
  {
    if |handlers| < 0x4000 {
      Begins(t, handlers, indexes, words);
      var image := Image(handlers, words);
      assert Untouched(image, image, 0);
      hide Layout, NoZero, Holds, Image, Stream, Zeros, Padding, Unpack, Finish, IsZero, Rebuilt, Init, Untouched;
      InitIs(image);
      Crowded(t, handlers, indexes, words, Zeros(Padding(WordCount(t))), image, image, 0, 0);
      if Unpack(image, 0, 0).0 == Done { SameIsNotRebuilt(t, Unpack(image, 0, 0).1); }
    } else {
      Overfull(t, handlers, indexes, words);
      hide *;
    }
  }

  /** With so many handlers that they reach the control words, the memory looks as if it had been expanded before. */
  lemma Overfull(t: seq<int>, handlers: seq<Handler>, indexes: seq<int>, words: seq<Word>)
    requires Layout(t) && |indexes| == SIZE && 0x4000 <= |handlers| && NoZero(handlers)
    requires words == Stream(t, indexes, |handlers|, 0) + Zeros(Padding(WordCount(t)))
    ensures |t| == SIZE && |words| % 2 == 0 && |Image(handlers, words)| >= SIZE
    ensures Init(Image(handlers, words)).0 == Already
  {
    WordsLength(t, indexes, |handlers|, words);
    hide Stream, Padding, Zeros, Unpack, Finish;
    assert Image(handlers, words)[CONTROL - 1] == CellAt(handlers, words, CONTROL - 1) == Code(handlers[0x3fff]);
  }

  /** Every call after the first finds the table expanded and leaves it alone. */
  lemma SecondInit(t: seq<int>, m: seq<Cell>)
    requires |t| == SIZE && Rebuilt(m, t)
    ensures Init(m) == (Already, m)
  {
    assert m[CONTROL - 1] == Code(Ideal(t[CONTROL - 1]));
    hide Unpack, Finish;
  }

  /** The generator prints the memory image and the start-up code expands it in place. The table is rebuilt, every entry
      of it, exactly when it is compressible; the source notices none of the ways in which it is not. */
  method CompressAndDecompress(t: seq<int>) returns (mem: array<Cell>, r: Outcome)
    requires Layout(t)
    ensures fresh(mem) && |t| == SIZE && (r == Done && Rebuilt(mem[..], t) <==> Compressible(t))
  {
    hide Collected, Stream, Padding, Image, Init, Rebuilt, StaysAhead, HandlerCount, WordCount, Indexed, NothingExtra,
      NoZero;
    var handlers, indexes := CollectHandlers(t);
    var words := Compress(t, |handlers|, indexes);
    CollectedNoZero(t, handlers, indexes[..]);
    PaddingTerminates(WordCount(t));
    if |handlers| < BLOCK {
      FewHandlers(t, handlers, indexes[..], words);
    } else {
      ManyHandlers(t, handlers, indexes[..], words);
    }
    mem := PrintImage(handlers, words);
    r := Decompress(mem);
  }

  method PrintImage(handlers: seq<Handler>, words: seq<Word>) returns (mem: array<Cell>)
    requires |words| % 2 == 0
    ensures fresh(mem) && mem[..] == Image(handlers, words)
  {
    var n := ImageSize(handlers, words);
    mem := new Cell[n](e requires 0 <= e < n => CellAt(handlers, words, e));
  }

  // --------------------------------------------------------------------- tables that fail

  /** Two opcodes that take turns, but for some equal entries at the front, and nothing behind the a-line block. */
  function TurnEntry(first: nat, i: int): int {
    if i < first then 0 else if i < ALINE then i % 2 else if i < ALINE + BLOCK then -2 else if i < FLINE then -1 else -3
  }

  function TurnTable(first: nat): (t: seq<int>)
    ensures |t| == SIZE && forall i :: 0 <= i < SIZE ==> t[i] == TurnEntry(first, i)
  {
    seq(SIZE, i => TurnEntry(first, i))
  }

  /** From some entry on every opcode takes a word of its own. */
  lemma {:induction false} TurnWords(first: nat, i: nat)
    requires first <= i <= ALINE && (first == i ==> first % 2 == 1)
    ensures WordsFrom(TurnTable(first), i) == ALINE - i + 4
    decreases ALINE - i
  {
    var t := TurnTable(first);
    hide WordsFrom, RunFrom, TurnTable;
    NextWords(t, i);
    if i == ALINE {
      RunIsMaximal(t, ALINE, BLOCK);
      NextWords(t, ALINE + BLOCK);
      RunIsMaximal(t, ALINE + BLOCK, FLINE - ALINE - BLOCK);
      NoWordsLeft(t);
    } else {
      RunIsMaximal(t, i, 1);
      TurnWords(first, i + 1);
    }
  }

  lemma NextWords(t: seq<int>, i: nat)
    requires i < FLINE <= |t|
    ensures WordsFrom(t, i) == WordsOfRun(RunFrom(t, i)) + WordsFrom(t, i + RunFrom(t, i))
  {
    hide WordsOfRun, RunFrom;
  }

  lemma NoWordsLeft(t: seq<int>)
    requires FLINE <= |t|
    ensures WordsFrom(t, FLINE) == 0
  {
  }

  /** Behind its front the table is written over the control words only at its end. */
  lemma {:induction false} TurnAhead(first: nat, i: nat, p: nat)
    requires first <= i <= ALINE && (first == i ==> first % 2 == 1)
    ensures StaysAhead(TurnTable(first), i, p) <==> Ahead(FLINE, p + (ALINE - i + 4))
    decreases ALINE - i
  {
    var t := TurnTable(first);
    hide StaysAhead, RunFrom, TurnTable;
    StaysAheadStep(t, i, p);
    if i == ALINE {
      RunIsMaximal(t, ALINE, BLOCK);
      StaysAheadStep(t, ALINE + BLOCK, p + 2);
      RunIsMaximal(t, ALINE + BLOCK, FLINE - ALINE - BLOCK);
      AheadAtEnd(t, p + 4);
    } else {
      RunIsMaximal(t, i, 1);
      TurnAhead(first, i + 1, p + 1);
    }
  }

  lemma AheadAtEnd(t: seq<int>, p: nat)
    requires FLINE <= |t|
    ensures StaysAhead(t, FLINE, p) <==> Ahead(FLINE, p)
  {
  }

  lemma TurnOpcodes(first: nat)
    requires 0 < first < ALINE && first % 2 == 1
    ensures Layout(TurnTable(first)) && HandlerCount(TurnTable(first)) == 5
  {
    var t := TurnTable(first);
    assert t[..SIZE] == t && t[0] == 0 && t[first] == 1;
    assert Opcodes(t, SIZE) == {0, 1};
  }

  lemma TurnCounts(first: nat)
    requires 0 < first < ALINE && first % 2 == 1
    ensures WordCount(TurnTable(first)) == WordsOfRun(first) + (ALINE - first + 4)
    ensures StaysAhead(TurnTable(first), 0, 0) <==> Ahead(FLINE, WordsOfRun(first) + (ALINE - first + 4))
  {
    var t := TurnTable(first);
    hide WordsFrom, RunFrom, TurnTable, StaysAhead, WordsOfRun;
    NextWords(t, 0);
    RunIsMaximal(t, 0, first);
    TurnWords(first, first);
    StaysAheadStep(t, 0, 0);
    TurnAhead(first, first, WordsOfRun(first));
  }

  /** Five handlers each, and between 0x9ff8 and 0xa004 control words. Where these are a whole number of lines they fill
      the control area and nothing is printed behind them; all the other tables can be compressed. */
  lemma TurnsAreCompressibleExactlyWhen(first: nat)
    requires 0 < first <= 0xd && first % 2 == 1
    ensures var t := TurnTable(first);
            && Layout(t) && HandlerCount(t) == 5 && WordCount(t) == ALINE + 5 - first && StaysAhead(t, 0, 0)
            && (Compressible(t) <==> first != 5 && first != 0xd)
  {
    hide *;
    TurnArithmetic(first);
    TurnOpcodes(first);
    TurnCounts(first);
    CompressibleMeans(TurnTable(first));
  }

  lemma TurnArithmetic(first: nat)
    requires 0 < first <= 0xd && first % 2 == 1
    ensures first < ALINE && WordsOfRun(first) == 1 && 5 < BLOCK && FLINE <= SIZE && Ahead(FLINE, ALINE + 5 - first)
    ensures var n := ALINE + 5 - first; n < 0x400f || 1 <= n % 8 <= 6 <==> first != 5 && first != 0xd
  {
  }

  lemma CompressibleMeans(t: seq<int>)
    requires FLINE <= |t|
    ensures Compressible(t)
            <==> HandlerCount(t) < BLOCK && (WordCount(t) < 0x400f || 1 <= WordCount(t) % 8 <= 6) && StaysAhead(t, 0, 0)
  {
    hide HandlerCount, WordCount, StaysAhead;
  }

  /** One opcode in front of the a-line block and nothing behind it: six control words with their end marker, over which
      the table runs while the last of them is at work. */
  function PlainEntry(i: int): int
  {
    if i < ALINE then 0 else if i < ALINE + BLOCK then -2 else if i < FLINE then -1 else -3
  }

  function PlainTable(): (t: seq<int>)
    ensures |t| == SIZE && forall i :: 0 <= i < SIZE ==> t[i] == PlainEntry(i)
  {
    seq(SIZE, i => PlainEntry(i))
  }

  lemma PlainIsNotCompressible()
    ensures Layout(PlainTable()) && HandlerCount(PlainTable()) == 4 && WordCount(PlainTable()) == 6
    ensures !Compressible(PlainTable())
  {
    PlainOpcodes();
    PlainCounts();
    hide PlainTable, StaysAhead, WordCount, HandlerCount;
  }

  lemma PlainOpcodes()
    ensures Layout(PlainTable()) && HandlerCount(PlainTable()) == 4
  {
    var t := PlainTable();
    assert t[..SIZE] == t && t[0] == 0;
    assert Opcodes(t, SIZE) == {0};
  }

  lemma PlainCounts()
    ensures WordCount(PlainTable()) == 6 && !StaysAhead(PlainTable(), 0, 0)
  {
    var t := PlainTable();
    hide WordsFrom, RunFrom, PlainTable, StaysAhead;
    RunIsMaximal(t, 0, ALINE);
    RunIsMaximal(t, ALINE, BLOCK);
    RunIsMaximal(t, ALINE + BLOCK, FLINE - ALINE - BLOCK);
    NextWords(t, 0);
    NextWords(t, ALINE);
    NextWords(t, ALINE + BLOCK);
    NoWordsLeft(t);
    StaysAheadStep(t, 0, 0);
    StaysAheadStep(t, ALINE, 2);
    StaysAheadStep(t, ALINE + BLOCK, 4);
    AheadAtEnd(t, 6);
  }

  /** A table with n opcodes, each once. */
  function ManyEntry(n: nat, i: int): int {
    if i < n then i else if i < ALINE then -1 else if i < ALINE + BLOCK then -2 else if i < FLINE then -1 else -3
  }

  function ManyTable(n: nat): (t: seq<int>)
    ensures |t| == SIZE && forall i :: 0 <= i < SIZE ==> t[i] == ManyEntry(n, i)
  {
    seq(SIZE, i => ManyEntry(n, i))
  }

  function Numbers(n: nat): (s: set<int>)
    ensures |s| == n && forall x :: x in s <==> 0 <= x < n
  {
    if n == 0 then {} else Numbers(n - 1) + {n - 1}
  }

  /** With three fixed handlers, 0xffd opcodes are one too many. */
  lemma ManyAreNotCompressible(n: nat)
    requires n <= ALINE
    ensures Layout(ManyTable(n)) && HandlerCount(ManyTable(n)) == 3 + n
    ensures n >= 0xffd ==> !Compressible(ManyTable(n))
  {
    var t := ManyTable(n);
    assert t[..SIZE] == t;
    forall x | 0 <= x < n ensures x in Opcodes(t, SIZE) { assert t[x] == x; }
    assert Opcodes(t, SIZE) == Numbers(n);
    hide WordCount, StaysAhead;
  }
}
